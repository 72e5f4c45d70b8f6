/** The three MongoDB collections the backend uses (users, doctors,
    appointments), held as in-memory tables in insertion order, with the
    document operations the routes perform on them.  `save()` on a document
    runs the schema's validation and writes nothing when it fails; the
    `find…AndUpdate` calls run no validation. */
module Store {
  import opened Common
  import opened Fields
  import opened UserModel
  import opened DoctorModel
  import opened AppointmentModel
  import opened SlotLedger

  class Db {
    var users: seq<User>
    var doctors: seq<Doctor>
    var appointments: seq<Appointment>
    /** The next fresh document id (an ObjectId generator in the system). */
    var nextId: Id

    /** Ids are fresh and distinct in every table, user emails are distinct
        (the register guard), and every stored user and appointment passes its
        schema: the modelled routes write them only through validating saves,
        or through an update that sets a valid value.  (The profile update,
        which is not part of this model, writes users unvalidated.)  An appointment refers to a doctor id
        already handed out, so a doctor added later is nobody's.  Doctors need
        not pass their schema: the update route writes them unvalidated. */
    ghost predicate Valid()
      reads this
    {
      IdsFresh() && IdsDistinct() && SchemasHold()
    }

    ghost predicate IdsFresh()
      reads this
    {
      && (forall i :: 0 <= i < |users| ==> users[i].id < nextId)
      && (forall i :: 0 <= i < |doctors| ==> doctors[i].id < nextId)
      && (forall i :: 0 <= i < |appointments| ==> appointments[i].id < nextId && appointments[i].doctorId < nextId)
    }

    ghost predicate IdsDistinct()
      reads this
    {
      && (forall i, j :: 0 <= i < j < |users| ==> users[i].id != users[j].id)
      && DistinctDoctorIds(doctors)
      && (forall i, j :: 0 <= i < j < |appointments| ==> appointments[i].id != appointments[j].id)
      && (forall i, j :: 0 <= i < j < |users| ==> users[i].email != users[j].email)
    }

    ghost predicate SchemasHold()
      reads this
    {
      && (forall i :: 0 <= i < |users| ==> ValidUser(users[i]))
      && (forall i :: 0 <= i < |appointments| ==> ValidAppointment(appointments[i]))
    }

    /** The booking ledger's two invariants: sequential tokens per key, and no
        key above its doctor's capacity. */
    ghost predicate Ledger()
      reads this
    {
      TokensSequential(appointments) && WithinCapacity(doctors, appointments)
    }

    constructor ()
      ensures Valid() && Ledger()
      ensures users == [] && doctors == [] && appointments == [] && nextId == 0
    {
      users := [];
      doctors := [];
      appointments := [];
      nextId := 0;
    }

    /** `new Appointment({...}).save()`: validation, then the insert. */
    method SaveNewAppointment(a: Appointment) returns (saved: bool)
      requires Valid() && a.id == nextId && a.doctorId < nextId
      modifies this
      ensures Valid()
      ensures saved <==> ValidAppointment(a)
      ensures saved ==> appointments == old(appointments) + [a] && nextId == old(nextId) + 1
      ensures !saved ==> appointments == old(appointments) && nextId == old(nextId)
      ensures users == old(users) && doctors == old(doctors)
    {
      saved := ValidAppointment(a);
      if saved {
        appointments := appointments + [a];
        nextId := nextId + 1;
      }
    }

    /** `new User({...}).save()`, for a user whose email no stored user has. */
    method SaveNewUser(u: User) returns (saved: bool)
      requires Valid() && u.id == nextId
      requires forall j :: 0 <= j < |users| ==> users[j].email != u.email
      modifies this
      ensures Valid()
      ensures saved <==> ValidUser(u)
      ensures saved ==> users == old(users) + [u] && nextId == old(nextId) + 1
      ensures !saved ==> users == old(users) && nextId == old(nextId)
      ensures doctors == old(doctors) && appointments == old(appointments)
    {
      saved := ValidUser(u);
      if saved {
        users := users + [u];
        nextId := nextId + 1;
      }
    }

    /** `new Doctor({...}).save()`. */
    method SaveNewDoctor(d: Doctor) returns (saved: bool)
      requires Valid() && d.id == nextId
      modifies this
      ensures Valid()
      ensures saved <==> ValidDoctor(d)
      ensures saved ==> doctors == old(doctors) + [d] && nextId == old(nextId) + 1
      ensures !saved ==> doctors == old(doctors) && nextId == old(nextId)
      ensures users == old(users) && appointments == old(appointments)
    {
      saved := ValidDoctor(d);
      if saved {
        doctors := doctors + [d];
        nextId := nextId + 1;
      }
    }

    /** `appointment.status = status; appointment.save()` on the k-th
        appointment: the changed document is validated before it replaces the stored one. */
    method SaveAppointmentStatus(k: nat, status: string) returns (saved: bool)
      requires Valid() && k < |appointments|
      modifies this
      ensures Valid()
      ensures saved <==> ValidStatus(status)
      ensures saved ==> appointments == old(appointments)[k := old(appointments)[k].(status := status)]
      ensures !saved ==> appointments == old(appointments)
      ensures users == old(users) && doctors == old(doctors) && nextId == old(nextId)
    {
      var a := appointments[k].(status := status);
      saved := ValidAppointment(a);
      if saved {
        appointments := appointments[k := a];
      }
    }

    /** `findOneAndUpdate(filter, { status: 'cancelled' })` on the k-th
        appointment: no validation runs, and the value set is a valid status anyway. */
    method MarkCancelled(k: nat)
      requires Valid() && k < |appointments|
      modifies this
      ensures Valid()
      ensures appointments == old(appointments)[k := old(appointments)[k].(status := "cancelled")]
      ensures users == old(users) && doctors == old(doctors) && nextId == old(nextId)
    {
      appointments := appointments[k := appointments[k].(status := "cancelled")];
    }

    /** `findByIdAndUpdate` on the k-th doctor: the new document is written
        unvalidated; its id is kept. */
    method WriteDoctor(k: nat, d: Doctor)
      requires Valid() && k < |doctors| && d.id == doctors[k].id
      modifies this
      ensures Valid()
      ensures doctors == old(doctors)[k := d]
      ensures users == old(users) && appointments == old(appointments) && nextId == old(nextId)
    {
      doctors := doctors[k := d];
    }

    /** `findByIdAndDelete` on the k-th doctor; nothing referring to it is touched. */
    method DeleteDoctorAt(k: nat)
      requires Valid() && k < |doctors|
      modifies this
      ensures Valid()
      ensures doctors == old(doctors)[..k] + old(doctors)[k + 1..]
      ensures users == old(users) && appointments == old(appointments) && nextId == old(nextId)
    {
      doctors := doctors[..k] + doctors[k + 1..];
    }
  }
}
