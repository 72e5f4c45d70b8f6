/** The Appointment schema (models/Appointment.js): the stored record, the
    defaults Mongoose fills in, and the validation `save()` runs. */
module AppointmentModel {
  import opened Common
  import opened Text
  import opened Fields

  /** A stored appointment.  The ids, the date, the slot and the token number
      are fixed at booking; only `status` changes afterwards. */
  datatype Appointment = Appointment(
    id: Id,
    patientId: Id,
    doctorId: Id,
    date: string,
    slot: string,
    status: string,
    tokenNumber: int,
    documents: seq<string>)

  const Morning := "morning"
  const Evening := "evening"

  /** `slot`: required, one of 'morning' and 'evening'. */
  predicate ValidSlot(s: string) {
    s == Morning || s == Evening
  }

  /** `status`: one of the four lifecycle values. */
  predicate ValidStatus(s: string) {
    s == "pending" || s == "scheduled" || s == "completed" || s == "cancelled"
  }

  /** `documents`: every element is a link starting with "http"; the empty list passes. */
  predicate ValidDocuments(ds: seq<string>) {
    forall i :: 0 <= i < |ds| ==> IsHttpLink(ds[i])
  }

  /** Everything the schema checks on `save()`.  The ids and the token number
      are `required`; in this model they are always present, so the check
      reduces to the date pattern and the three value rules. */
  predicate ValidAppointment(a: Appointment) {
    IsDatePattern(a.date) && ValidSlot(a.slot) && ValidStatus(a.status) && ValidDocuments(a.documents)
  }

  /** The document `new Appointment({...})` builds from what the booking route
      passes: `status` defaults to "pending", an absent `documents` to []. */
  function NewAppointment(id: Id, patientId: Id, doctorId: Id, date: string, slot: string,
                          tokenNumber: int, documents: Option<seq<string>>): (a: Appointment)
    ensures a.id == id && a.patientId == patientId && a.doctorId == doctorId
    ensures a.date == date && a.slot == slot && a.tokenNumber == tokenNumber
    ensures a.status == "pending" && ValidStatus(a.status)
    ensures documents.None? ==> a.documents == [] && ValidDocuments(a.documents)
    ensures documents.Some? ==> a.documents == documents.value
  {
    Appointment(id, patientId, doctorId, date, slot, "pending", tokenNumber,
                match documents case None => [] case Some(ds) => ds)
  }

  /** A freshly built appointment passes validation exactly when its date, its
      slot and its documents do: the defaults themselves always pass. */
  lemma NewAppointmentValid(id: Id, patientId: Id, doctorId: Id, date: string, slot: string,
                            tokenNumber: int, documents: Option<seq<string>>)
    ensures ValidAppointment(NewAppointment(id, patientId, doctorId, date, slot, tokenNumber, documents))
        <==> IsDatePattern(date) && ValidSlot(slot)
             && (documents.Some? ==> ValidDocuments(documents.value))
  {
  }

  /** Index of the appointment with this id (`findById`). */
  function FindAppointment(s: seq<Appointment>, id: Id): (r: Option<nat>)
    ensures r.Some? ==> r.value < |s| && s[r.value].id == id
    ensures r.None? <==> forall j :: 0 <= j < |s| ==> s[j].id != id
  {
    First(s, (a: Appointment) => a.id == id)
  }
}
