/** The appointment handlers of the doctor router (routes/doctor.js), behind
    `auth('doctor')`: the doctor's appointment list and the status update.
    The doctor login is `Accounts.DoctorLogin`. */
module DoctorRoutes {
  import opened Common
  import opened Fields
  import opened AppointmentModel
  import opened SlotLedger
  import opened Auth
  import opened Store

  /** The list handler.  `date` is the query parameter ("" when absent): a
      present date that does not fit the pattern is refused with 400 before
      any lookup; otherwise the result is the principal's appointments, on
      that date when one is given, in stored order. */
  function DoctorAppointments(s: seq<Appointment>, user: Principal, date: string): (r: Reply<seq<Appointment>>)
    ensures r.Ok? || r == Fail(400, "Invalid date format (use YYYY-MM-DD)")
    ensures r.Fail? <==> date != "" && !IsDatePattern(date)
    ensures r.Ok? ==> |r.value| <= |s|
    ensures r.Ok? ==> forall a :: a in r.value <==> a in s && a.doctorId == user.id && (date != "" ==> a.date == date)
    ensures r.Ok? ==> forall a :: multiset(r.value)[a]
                       == if a.doctorId == user.id && (date != "" ==> a.date == date) then multiset(s)[a] else 0
  {
    if date != "" && !IsDatePattern(date) then Fail(400, "Invalid date format (use YYYY-MM-DD)")
    else Ok(Filter(s, (a: Appointment) => a.doctorId == user.id && (date == "" || a.date == date)))
  }

  /** Every listed appointment is the principal's own, and carries the requested date. */
  lemma ListedAreOwn(s: seq<Appointment>, user: Principal, date: string, i: nat)
    requires DoctorAppointments(s, user, date).Ok?
    requires i < |DoctorAppointments(s, user, date).value|
    ensures DoctorAppointments(s, user, date).value[i].doctorId == user.id
    ensures date != "" ==> DoctorAppointments(s, user, date).value[i].date == date
  {
    assert DoctorAppointments(s, user, date).value[i] in DoctorAppointments(s, user, date).value;
  }

  /** The dated list is the part of the undated list that falls on the date. */
  lemma DatedListNarrows(s: seq<Appointment>, user: Principal, date: string)
    requires date != "" && IsDatePattern(date)
    ensures forall a :: a in DoctorAppointments(s, user, date).value
                     <==> a in DoctorAppointments(s, user, "").value && a.date == date
  {
  }

  /** The status handler.  An unknown id answers 404 and changes nothing.  The
      new status is assigned and the document saved, so a value outside the
      four statuses fails validation: 500, nothing stored.  Otherwise exactly
      that appointment's status changes.  Which doctor asks is not consulted:
      any doctor may set the status of any appointment. */
  method UpdateStatus(db: Db, user: Principal, id: Id, status: string) returns (r: Reply<string>)
    requires db.Valid()
    modifies db
    ensures db.Valid()
    ensures db.users == old(db.users) && db.doctors == old(db.doctors) && db.nextId == old(db.nextId)
    ensures r == Ok("Status updated") || r == Fail(404, "Appointment not found") || r == Fail(500, "Server error")
    ensures r == Fail(404, "Appointment not found") <==> FindAppointment(old(db.appointments), id).None?
    ensures r == Fail(500, "Server error") <==> FindAppointment(old(db.appointments), id).Some? && !ValidStatus(status)
    ensures r.Fail? ==> db.appointments == old(db.appointments)
    ensures r.Ok? ==>
              var k := FindAppointment(old(db.appointments), id).value;
              db.appointments == old(db.appointments)[k := old(db.appointments)[k].(status := status)]
    ensures old(db.Ledger()) ==> db.Ledger()
  {
    var found := FindAppointment(db.appointments, id);
    if found.None? {
      return Fail(404, "Appointment not found");
    }
    ghost var before := db.appointments;
    var saved := db.SaveAppointmentStatus(found.value, status);
    if !saved {
      return Fail(500, "Server error");
    }
    assert SameBookings(before, db.appointments);
    SameBookingsKeepLedger(db.doctors, before, db.appointments);
    r := Ok("Status updated");
  }
}
