/** End-to-end runs of the handlers on a fresh store: a slot filling up
    (routes/patient.js, lines 101-104) and the role gate in front of an admin
    route (middleware/auth.js, lines 4-10). */
module Scenarios {
  import opened Common
  import opened Text
  import opened Fields
  import opened UserModel
  import opened DoctorModel
  import opened AppointmentModel
  import opened SlotLedger
  import opened Auth
  import opened Store
  import opened Accounts
  import opened PatientRoutes
  import opened AdminRoutes

  /** A literal email that is already lower case and trimmed is stored as written. */
  lemma NormalizedLiteral(s: string)
    requires forall i :: 0 <= i < |s| ==> !IsUpper(s[i])
    requires s == [] || (!IsSpace(s[0]) && !IsSpace(s[|s| - 1]))
    ensures NormalizeEmail(s) == s
  {
    ToLowerNoOp(s);
    TrimNoOp(s);
  }

  /** An email as the schema stores it: already lower case and trimmed, and
      matching the pattern. */
  predicate StoredEmail(e: string) {
    NormalizeEmail(e) == e && EmailMatches(e)
  }

  /** Such emails exist: "rao@clinic.in" is one. */
  lemma ExampleEmail()
    ensures StoredEmail("rao@clinic.in")
  {
    ExampleEmailNormalized();
    ExampleEmailMatches();
  }

  lemma ExampleEmailNormalized()
    ensures NormalizeEmail("rao@clinic.in") == "rao@clinic.in"
  {
    var e := "rao@clinic.in";
    assert forall i :: 0 <= i < |e| ==> !IsUpper(e[i]);
    NormalizedLiteral(e);
  }

  lemma ExampleEmailMatches()
    ensures EmailMatches("rao@clinic.in")
  {
    assert AtSignAt("rao@clinic.in", 3) && DotAt("rao@clinic.in", 3, 10);
  }

  /** The doctor the scenario adds: one morning booking a day, none in the evening. */
  function DoctorRao(email: string): DoctorInput {
    DoctorInput("Dr Rao", 40, "female", "cardiology", "MD", "City Hospital", "1 Main Street",
                email, "secret-pw", Some(1), Some(0), "Pune", None)
  }

  /** Dr Rao's record passes the doctor schema once its password is any 60-character hash. */
  lemma DoctorRaoIsValid(email: string, hashed: string)
    requires StoredEmail(email) && |hashed| == 60
    ensures ValidDoctor(NewDoctor(0, DoctorRao(email), hashed))
  {
    DefaultImageUrlIsLink();
  }

  /** Patient Asha's registration passes the user schema. */
  lemma AshaIsValid(email: string, hashed: string)
    requires StoredEmail(email) && |hashed| == 60
    ensures ValidUser(NewUser(1, "Asha", email, hashed, "patient", 30, "female", "9876543210"))
  {
    assert IsPhone("9876543210");
  }

  /** The booking of the scenario passes the appointment schema. */
  lemma BookingIsValid(patientId: Id, token: int)
    ensures ValidAppointment(NewAppointment(2, patientId, 0, "2025-06-01", "morning", token, None))
  {
    assert IsDatePattern("2025-06-01");
  }

  /** A fresh store after the admin adds Dr Rao. */
  method AddRao(hash: string -> string, doctorEmail: string) returns (db: Db)
    requires |hash("secret-pw")| == 60
    requires StoredEmail(doctorEmail)
    ensures fresh(db) && db.Valid() && db.Ledger()
    ensures db.doctors == [NewDoctor(0, DoctorRao(doctorEmail), hash("secret-pw"))]
    ensures db.users == [] && db.appointments == [] && db.nextId == 1
  {
    DoctorRaoIsValid(doctorEmail, hash("secret-pw"));
    db := new Db();
    var added := AddDoctor(db, DoctorRao(doctorEmail), hash);
    assert added.Ok?;
  }

  /** The same store after patient Asha registers. */
  method Setup(hash: string -> string, doctorEmail: string, patientEmail: string) returns (db: Db)
    requires |hash("secret-pw")| == 60 && |hash("asha-pw")| == 60
    requires StoredEmail(doctorEmail) && StoredEmail(patientEmail)
    ensures fresh(db) && db.Valid() && db.Ledger()
    ensures db.doctors == [NewDoctor(0, DoctorRao(doctorEmail), hash("secret-pw"))]
    ensures |db.users| == 1 && db.users[0].id == 1
    ensures db.appointments == [] && db.nextId == 2
  {
    db := AddRao(hash, doctorEmail);
    AshaIsValid(patientEmail, hash("asha-pw"));
    var registered := Register(db, "Asha", patientEmail, "asha-pw", "patient", 30, "female", "9876543210", hash);
    assert registered != Fail(400, "Email already in use");
    assert registered.Ok?;
  }

  /** Doctor D takes one morning booking.  Patient A registers and books
      (D, 2025-06-01, morning) and gets token 1; patient B then books the same
      key and is told the slot is full.  `hash` stands for bcrypt, whose
      output is 60 characters long; only the two passwords used here matter. */
  method SlotFillsUp(hash: string -> string, doctorEmail: string, patientEmail: string)
    returns (first: Reply<int>, second: Reply<int>)
    requires |hash("secret-pw")| == 60 && |hash("asha-pw")| == 60
    requires StoredEmail(doctorEmail) && StoredEmail(patientEmail)
    ensures first == Ok(1)
    ensures second == Fail(400, "Slot full")
  {
    var db := Setup(hash, doctorEmail, patientEmail);
    BookingIsValid(1, 1);
    assert FindDoctor(db.doctors, 0) == Some(0);
    assert FindUser(db.users, 1) == Some(0);
    first := Book(db, Principal(1, "patient"), 0, "2025-06-01", "morning", None, true);
    assert CountKey(db.appointments, 0, "2025-06-01", "morning") == 1 by {
      assert db.appointments[..0] == [];
    }
    second := Book(db, Principal(3, "patient"), 0, "2025-06-01", "morning", None, true);
  }

  /** The admin doctor list behind `auth('admin')`: no cookie is 401, a
      patient's token is 403, an admin's token passes with its claims. */
  lemma AdminGateScenario(verify: string -> Option<Principal>, patientToken: string, adminToken: string)
    requires patientToken != "" && verify(patientToken) == Some(Principal(1, "patient"))
    requires adminToken != "" && verify(adminToken) == Some(Principal(2, "admin"))
    ensures Gate("admin", "", verify) == Deny(401, "Access Denied")
    ensures Gate("admin", patientToken, verify) == Deny(403, "Forbidden")
    ensures Gate("admin", adminToken, verify) == Allow(Principal(2, "admin"))
  {
  }
}
