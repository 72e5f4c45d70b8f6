/** The doctor-management handlers of the admin router (routes/admin.js),
    behind `auth('admin')`: add, update and delete a doctor.  Register and
    login are `Accounts.Register` and `Accounts.UserLogin`; the search is
    `Search.SearchDoctors`. */
module AdminRoutes {
  import opened Common
  import opened Fields
  import opened DoctorModel
  import opened AppointmentModel
  import opened SlotLedger
  import opened Auth
  import opened Store
  import opened Accounts

  /** The add handler: the password is hashed, the doctor is built with the
      schema defaults and saved.  A save that fails validation answers 500 and
      stores nothing.  The plain password is never stored. */
  method AddDoctor(db: Db, input: DoctorInput, hash: string -> string) returns (r: Reply<string>)
    requires db.Valid()
    modifies db
    ensures db.Valid()
    ensures db.users == old(db.users) && db.appointments == old(db.appointments)
    ensures r == Ok("Doctor added") || r == Fail(500, "Server error")
    ensures var d := NewDoctor(old(db.nextId), input, hash(input.password));
      && (r.Ok? <==> ValidDoctor(d))
      && (r.Ok? ==> db.doctors == old(db.doctors) + [d] && db.nextId == old(db.nextId) + 1)
      && (r.Fail? ==> db.doctors == old(db.doctors) && db.nextId == old(db.nextId))
    ensures r.Ok? ==> db.doctors[|db.doctors| - 1].password == hash(input.password)
    ensures old(db.Ledger()) ==> db.Ledger()
  {
    var hashed := hash(input.password);
    var d := NewDoctor(db.nextId, input, hashed);
    ghost var before := db.doctors;
    var saved := db.SaveNewDoctor(d);
    if !saved {
      return Fail(500, "Server error");
    }
    if old(db.Ledger()) {
      AddedDoctorKeepsCapacity(before, db.appointments, d);
    }
    r := Ok("Doctor added");
  }

  /** `maxAppointments` as a request body carries it: the whole object. */
  datatype Capacity = Capacity(morning: int, evening: int)

  /** The body of an update request: each field present or absent.  The id
      cannot be changed. */
  datatype DoctorPatch = DoctorPatch(
    name: Option<string>,
    email: Option<string>,
    password: Option<string>,
    age: Option<int>,
    gender: Option<string>,
    speciality: Option<string>,
    qualification: Option<string>,
    hospital: Option<string>,
    address: Option<string>,
    imageUrl: Option<string>,
    maxAppointments: Option<Capacity>,
    location: Option<string>,
    role: Option<string>)

  function Or<T>(o: Option<T>, default: T): T {
    match o case None => default case Some(v) => v
  }

  const NoChange := DoctorPatch(None, None, None, None, None, None, None, None, None, None, None, None, None)

  /** `findByIdAndUpdate(id, body)`: every field the body carries overwrites the
      stored one, the others are kept.  The email goes through its setters; the
      password is written as given, without hashing; nothing is validated. */
  function ApplyPatch(d: Doctor, p: DoctorPatch): (r: Doctor)
    ensures r.id == d.id
    ensures p.name.Some? ==> r.name == p.name.value
    ensures p.name.None? ==> r.name == d.name
    ensures p.email.Some? ==> r.email == NormalizeEmail(p.email.value)
    ensures p.email.None? ==> r.email == d.email
    ensures p.password.Some? ==> r.password == p.password.value
    ensures p.password.None? ==> r.password == d.password
    ensures p.age.Some? ==> r.age == p.age.value
    ensures p.age.None? ==> r.age == d.age
    ensures p.gender.Some? ==> r.gender == p.gender.value
    ensures p.gender.None? ==> r.gender == d.gender
    ensures p.speciality.Some? ==> r.speciality == p.speciality.value
    ensures p.speciality.None? ==> r.speciality == d.speciality
    ensures p.qualification.Some? ==> r.qualification == p.qualification.value
    ensures p.qualification.None? ==> r.qualification == d.qualification
    ensures p.hospital.Some? ==> r.hospital == p.hospital.value
    ensures p.hospital.None? ==> r.hospital == d.hospital
    ensures p.address.Some? ==> r.address == p.address.value
    ensures p.address.None? ==> r.address == d.address
    ensures p.imageUrl.Some? ==> r.imageUrl == p.imageUrl.value
    ensures p.imageUrl.None? ==> r.imageUrl == d.imageUrl
    ensures p.maxAppointments.Some? ==>
              r.maxMorning == p.maxAppointments.value.morning && r.maxEvening == p.maxAppointments.value.evening
    ensures p.maxAppointments.None? ==> r.maxMorning == d.maxMorning && r.maxEvening == d.maxEvening
    ensures p.location.Some? ==> r.location == p.location.value
    ensures p.location.None? ==> r.location == d.location
    ensures p.role.Some? ==> r.role == p.role.value
    ensures p.role.None? ==> r.role == d.role
  {
    Doctor(d.id, Or(p.name, d.name),
           match p.email case None => d.email case Some(e) => NormalizeEmail(e),
           Or(p.password, d.password), Or(p.age, d.age), Or(p.gender, d.gender),
           Or(p.speciality, d.speciality), Or(p.qualification, d.qualification),
           Or(p.hospital, d.hospital), Or(p.address, d.address), Or(p.imageUrl, d.imageUrl),
           match p.maxAppointments case None => d.maxMorning case Some(c) => c.morning,
           match p.maxAppointments case None => d.maxEvening case Some(c) => c.evening,
           Or(p.location, d.location), Or(p.role, d.role))
  }

  /** An empty body changes nothing, and applying the same body twice is applying it once. */
  lemma PatchLaws(d: Doctor, p: DoctorPatch)
    ensures ApplyPatch(d, NoChange) == d
    ensures ApplyPatch(ApplyPatch(d, p), p) == ApplyPatch(d, p)
  {
    if p.email.Some? {
      NormalizeEmailIdempotent(p.email.value);
    }
  }

  /** The update handler: 404 for an unknown id; otherwise the merged doctor
      replaces the stored one, is sent back, and no other doctor, user or
      appointment changes.  Appointment tokens stay sequential; capacities are
      kept within bounds whenever the update lowers neither capacity; lowering
      one below a key's count breaks them
      (see `SlotLedger.LoweredCapacityBreaksInvariant`). */
  method UpdateDoctor(db: Db, id: Id, p: DoctorPatch) returns (r: Reply<Doctor>)
    requires db.Valid()
    modifies db
    ensures db.Valid()
    ensures db.users == old(db.users) && db.appointments == old(db.appointments) && db.nextId == old(db.nextId)
    ensures r.Ok? || r == Fail(404, "Doctor not found")
    ensures r.Fail? <==> FindDoctor(old(db.doctors), id).None?
    ensures r.Fail? ==> db.doctors == old(db.doctors)
    ensures r.Ok? ==>
              var k := FindDoctor(old(db.doctors), id).value;
              r.value == ApplyPatch(old(db.doctors)[k], p) && db.doctors == old(db.doctors)[k := r.value]
    ensures old(db.Ledger()) && r.Ok? &&
            (var k := FindDoctor(old(db.doctors), id).value;
             r.value.maxMorning >= old(db.doctors)[k].maxMorning && r.value.maxEvening >= old(db.doctors)[k].maxEvening)
            ==> db.Ledger()
    ensures old(db.Ledger()) ==> TokensSequential(db.appointments)
  {
    var found := FindDoctor(db.doctors, id);
    if found.None? {
      return Fail(404, "Doctor not found");
    }
    var d := ApplyPatch(db.doctors[found.value], p);
    ghost var before := db.doctors;
    db.WriteDoctor(found.value, d);
    if old(db.Ledger()) && d.maxMorning >= before[found.value].maxMorning && d.maxEvening >= before[found.value].maxEvening {
      UnloweredCapacitiesKeepCapacity(before, db.doctors, db.appointments);
    }
    r := Ok(d);
  }

  /** The delete handler: 404 for an unknown id; otherwise exactly that doctor
      is removed.  Appointments that refer to it stay as they are. */
  method DeleteDoctor(db: Db, id: Id) returns (r: Reply<string>)
    requires db.Valid()
    modifies db
    ensures db.Valid()
    ensures db.users == old(db.users) && db.appointments == old(db.appointments) && db.nextId == old(db.nextId)
    ensures r == Ok("Doctor deleted") || r == Fail(404, "Doctor not found")
    ensures r.Fail? <==> FindDoctor(old(db.doctors), id).None?
    ensures r.Fail? ==> db.doctors == old(db.doctors)
    ensures r.Ok? ==>
              var k := FindDoctor(old(db.doctors), id).value;
              db.doctors == old(db.doctors)[..k] + old(db.doctors)[k + 1..]
    ensures r.Ok? ==> forall j :: 0 <= j < |db.doctors| ==> db.doctors[j].id != id
    ensures old(db.Ledger()) ==> db.Ledger()
  {
    var found := FindDoctor(db.doctors, id);
    if found.None? {
      return Fail(404, "Doctor not found");
    }
    ghost var before := db.doctors;
    db.DeleteDoctorAt(found.value);
    if old(db.Ledger()) {
      RemovedDoctorKeepsCapacity(before, db.appointments, found.value);
    }
    forall j | 0 <= j < |db.doctors|
      ensures db.doctors[j].id != id
    {
      if j < found.value {
        assert db.doctors[j] == before[j];
      } else {
        assert db.doctors[j] == before[j + 1];
      }
    }
    r := Ok("Doctor deleted");
  }

  // ---------------------------------------------------------------------------
  // The update route writes a new password unhashed
  // ---------------------------------------------------------------------------

  /** As written: a body carrying a password stores it verbatim.  A stored
      value that no password hashes to (a plain password, or the empty string
      the admin dashboard sends on every edit) locks the doctor out: login with
      the doctor's email fails for every password. */
  lemma PatchedPasswordLocksOut(doctors: seq<Doctor>, k: nat, p: DoctorPatch, email: string, password: string,
                                hash: string -> string)
    requires k < |doctors| && p.password.Some?
    requires forall x :: hash(x) != p.password.value
    requires ApplyPatch(doctors[k], p).email == NormalizeEmail(email)
    requires forall j :: 0 <= j < k ==> doctors[j].email != NormalizeEmail(email)
    ensures DoctorLogin(doctors[k := ApplyPatch(doctors[k], p)], email, password, hash)
         == Fail(400, "Invalid credentials")
  {
    var changed := doctors[k := ApplyPatch(doctors[k], p)];
    var e := NormalizeEmail(email);
    FirstIs(DoctorAccounts(changed), (a: Account) => a.email == e, k);
  }

  /** Corrected: a non-empty body password is hashed before it is written, as
      the add handler does, and an empty one, which the dashboard's edit form
      sends when the admin leaves the password box blank, keeps the stored hash. */
  function ApplyPatchHashed(d: Doctor, p: DoctorPatch, hash: string -> string): (r: Doctor)
    ensures p.password.Some? && p.password.value != "" ==> r.password == hash(p.password.value)
    ensures p.password.None? || p.password == Some("") ==> r.password == d.password
    ensures r == ApplyPatch(d, p).(password := r.password)
  {
    var pw := match p.password
      case None => None
      case Some(v) => if v == "" then None else Some(hash(v));
    ApplyPatch(d, p.(password := pw))
  }

  /** With the corrected update, a dashboard edit that leaves the password blank
      and keeps the email leaves every doctor login as it was: the same
      passwords succeed, and a failing login fails with the same reply. */
  lemma BlankPasswordKeepsLogin(doctors: seq<Doctor>, k: nat, p: DoctorPatch, email: string, password: string,
                                hash: string -> string)
    requires k < |doctors| && p.password == Some("")
    requires ApplyPatch(doctors[k], p).email == doctors[k].email
    ensures var changed := doctors[k := ApplyPatchHashed(doctors[k], p, hash)];
      && (DoctorLogin(changed, email, password, hash).Ok? <==> DoctorLogin(doctors, email, password, hash).Ok?)
      && (DoctorLogin(changed, email, password, hash).Fail? ==>
            DoctorLogin(changed, email, password, hash) == DoctorLogin(doctors, email, password, hash))
  {
    var changed := doctors[k := ApplyPatchHashed(doctors[k], p, hash)];
    SameCredentialsSameOutcome(DoctorAccounts(doctors), DoctorAccounts(changed), email, password, hash);
  }

  /** With the corrected update, the doctor logs in with a new non-empty password. */
  lemma HashedPatchLogsIn(doctors: seq<Doctor>, k: nat, p: DoctorPatch, email: string, hash: string -> string)
    requires k < |doctors| && p.password.Some? && p.password.value != ""
    requires ApplyPatchHashed(doctors[k], p, hash).email == NormalizeEmail(email)
    requires forall j :: 0 <= j < k ==> doctors[j].email != NormalizeEmail(email)
    ensures var changed := doctors[k := ApplyPatchHashed(doctors[k], p, hash)];
      DoctorLogin(changed, email, p.password.value, hash)
      == Ok(Session(Principal(doctors[k].id, changed[k].role), changed[k].name, changed[k].role))
  {
    var changed := doctors[k := ApplyPatchHashed(doctors[k], p, hash)];
    var e := NormalizeEmail(email);
    FirstIs(DoctorAccounts(changed), (a: Account) => a.email == e, k);
  }
}
