/** The two writing handlers of the patient router (routes/patient.js) that
    act on appointments: booking a slot and cancelling an appointment.  Both
    run behind `auth('patient')`; `user` is the principal the gate attached.
    Requests are taken one at a time. */
module PatientRoutes {
  import opened Common
  import opened UserModel
  import opened DoctorModel
  import opened AppointmentModel
  import opened SlotLedger
  import opened Auth
  import opened Store

  /** The doctor exists and the key already holds its capacity for the slot.
      An unknown doctor, or a slot name with no capacity, is never full. */
  function SlotFull(doctors: seq<Doctor>, s: seq<Appointment>, doctorId: Id, date: string, slot: string): (r: bool)
    ensures r <==> exists k | 0 <= k < |doctors| ::
                     && doctors[k].id == doctorId && (forall j :: 0 <= j < k ==> doctors[j].id != doctorId)
                     && SlotLimit(doctors[k], slot).Some?
                     && CountKey(s, doctorId, date, slot) >= SlotLimit(doctors[k], slot).value
    ensures slot != "morning" && slot != "evening" ==> !r
  {
    match FindDoctor(doctors, doctorId)
    case None => false
    case Some(k) => !HasRoom(doctors[k], slot, CountKey(s, doctorId, date, slot))
  }

  /** The appointment a booking builds: token one more than the key's count,
      status "pending" by the schema default, and the request's documents
      ([] by the schema default when the body has none). */
  function Booked(s: seq<Appointment>, id: Id, patientId: Id, doctorId: Id, date: string, slot: string,
                  documents: Option<seq<string>>): (a: Appointment)
    ensures InKey(a, doctorId, date, slot) && a.id == id && a.patientId == patientId
    ensures a.tokenNumber == CountKey(s, doctorId, date, slot) + 1
    ensures a.status == "pending"
    ensures documents.Some? ==> a.documents == documents.value
    ensures documents.None? ==> a.documents == []
  {
    NewAppointment(id, patientId, doctorId, date, slot, CountKey(s, doctorId, date, slot) + 1, documents)
  }

  /** The booking handler.  Unknown doctor: 404.  Key at capacity: 400.
      Otherwise the appointment is built with token count + 1 and saved; a
      save that fails validation answers 500 and writes nothing.  Once saved,
      the appointment stays: a missing patient record or a failed confirmation
      email (`emailSent` false) still answers 500.  The reply carries the
      token the stored appointment holds. */
  method Book(db: Db, user: Principal, doctorId: Id, date: string, slot: string,
              documents: Option<seq<string>>, emailSent: bool) returns (r: Reply<int>)
    requires db.Valid()
    modifies db
    ensures db.Valid()
    ensures db.users == old(db.users) && db.doctors == old(db.doctors)
    ensures r.Ok? || r.Fail?
    ensures r == Fail(404, "Doctor not found") <==> FindDoctor(db.doctors, doctorId).None?
    ensures r == Fail(400, "Slot full") <==> SlotFull(db.doctors, old(db.appointments), doctorId, date, slot)
    ensures r.Fail? && r.code != 404 && r.code != 400 ==> r == Fail(500, "Server error")
    ensures var a := Booked(old(db.appointments), old(db.nextId), user.id, doctorId, date, slot, documents);
      if FindDoctor(db.doctors, doctorId).Some? && !SlotFull(db.doctors, old(db.appointments), doctorId, date, slot)
         && ValidAppointment(a)
      then db.appointments == old(db.appointments) + [a] && db.nextId == old(db.nextId) + 1
           && (r.Ok? <==> FindUser(db.users, user.id).Some? && emailSent)
           && (r.Ok? ==> r.value == a.tokenNumber)
      else db.appointments == old(db.appointments) && db.nextId == old(db.nextId) && r.Fail?
    ensures r.Ok? ==> CountKey(db.appointments, doctorId, date, slot)
                      <= SlotLimit(db.doctors[FindDoctor(db.doctors, doctorId).value], slot).value
    ensures old(db.Ledger()) ==> db.Ledger()
  {
    var found := FindDoctor(db.doctors, doctorId);
    var patient := FindUser(db.users, user.id);
    if found.None? {
      return Fail(404, "Doctor not found");
    }
    var doctor := db.doctors[found.value];
    var count := CountKey(db.appointments, doctorId, date, slot);
    if !HasRoom(doctor, slot, count) {
      assert SlotFull(db.doctors, db.appointments, doctorId, date, slot);
      return Fail(400, "Slot full");
    }
    assert !SlotFull(db.doctors, db.appointments, doctorId, date, slot);
    var a := Booked(db.appointments, db.nextId, user.id, doctorId, date, slot, documents);
    ghost var before := db.appointments;
    var saved := db.SaveNewAppointment(a);
    if !saved {
      return Fail(500, "Server error");
    }
    assert db.appointments == old(db.appointments) + [a];
    BookingKeepsLedger(db.doctors, before, a, found.value);
    assert CountKey(db.appointments, doctorId, date, slot) <= SlotLimit(doctor, slot).value;
    if patient.None? || !emailSent {
      return Fail(500, "Server error");
    }
    r := Ok(count + 1);
  }

  /** The filter of the cancel handler: the first appointment with this id
      that belongs to this patient. */
  function FindOwned(s: seq<Appointment>, id: Id, patientId: Id): (r: Option<nat>)
    ensures r.Some? ==> r.value < |s| && s[r.value].id == id && s[r.value].patientId == patientId
    ensures r.None? <==> forall j :: 0 <= j < |s| ==> !(s[j].id == id && s[j].patientId == patientId)
  {
    First(s, (a: Appointment) => a.id == id && a.patientId == patientId)
  }

  /** With distinct ids, the cancel filter finds the appointment with that id
      exactly when it belongs to the patient. */
  lemma FindOwnedIsOwnership(s: seq<Appointment>, id: Id, patientId: Id)
    requires forall i, j :: 0 <= i < j < |s| ==> s[i].id != s[j].id
    ensures FindOwned(s, id, patientId).Some?
        <==> FindAppointment(s, id).Some? && s[FindAppointment(s, id).value].patientId == patientId
    ensures FindOwned(s, id, patientId).Some? ==> FindOwned(s, id, patientId) == FindAppointment(s, id)
  {
    match FindOwned(s, id, patientId)
    case None =>
    case Some(k) =>
      FirstIs(s, (a: Appointment) => a.id == id, k);
  }

  /** The cancel handler.  When an appointment has this id and belongs to the
      patient, its status becomes "cancelled" and the updated appointment is
      sent back; no other field and no other appointment changes, and no key's
      count changes: a cancelled booking keeps its place and its token.  When
      none matches, 404 and nothing changes.  Any status can be cancelled. */
  method Cancel(db: Db, user: Principal, id: Id) returns (r: Reply<Appointment>)
    requires db.Valid()
    modifies db
    ensures db.Valid()
    ensures db.users == old(db.users) && db.doctors == old(db.doctors) && db.nextId == old(db.nextId)
    ensures r.Ok? || r == Fail(404, "Appointment not found or not authorized")
    ensures r.Ok? <==> exists k | 0 <= k < |old(db.appointments)| ::
                         old(db.appointments)[k].id == id && old(db.appointments)[k].patientId == user.id
    ensures r.Fail? ==> db.appointments == old(db.appointments)
    ensures r.Ok? ==>
              var k := FindAppointment(old(db.appointments), id).value;
              && old(db.appointments)[k].patientId == user.id
              && db.appointments == old(db.appointments)[k := old(db.appointments)[k].(status := "cancelled")]
              && r.value == db.appointments[k]
    ensures forall doctorId, date, slot :: CountKey(db.appointments, doctorId, date, slot)
                                         == CountKey(old(db.appointments), doctorId, date, slot)
    ensures old(db.Ledger()) ==> db.Ledger()
  {
    FindOwnedIsOwnership(db.appointments, id, user.id);
    var found := FindOwned(db.appointments, id, user.id);
    if found.None? {
      return Fail(404, "Appointment not found or not authorized");
    }
    ghost var before := db.appointments;
    db.MarkCancelled(found.value);
    r := Ok(db.appointments[found.value]);
    assert SameBookings(before, db.appointments);
    SameBookingsKeepLedger(db.doctors, before, db.appointments);
    SameBookingsSameCounts(before, db.appointments);
  }
}
