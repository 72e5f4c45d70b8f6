/** The booking ledger: how many appointments a (doctor, date, slot) key holds,
    the token numbers they carry, and the two invariants the booking route
    (routes/patient.js, `/book`) is there to keep — no key holds more bookings
    than its doctor's capacity for the slot, and the tokens of a key are
    1, 2, 3, ... in booking order.  Both are claimed for serialized requests. */
module SlotLedger {
  import opened Common
  import opened AppointmentModel
  import opened DoctorModel

  predicate InKey(a: Appointment, doctorId: Id, date: string, slot: string) {
    a.doctorId == doctorId && a.date == date && a.slot == slot
  }

  /** `Appointment.countDocuments({ doctorId, date, slot })`: every appointment
      of the key counts, whatever its status (a cancelled booking still holds
      its place). */
  function CountKey(s: seq<Appointment>, doctorId: Id, date: string, slot: string): (n: nat)
    ensures n <= |s|
    ensures n == 0 <==> forall j :: 0 <= j < |s| ==> !InKey(s[j], doctorId, date, slot)
  {
    if |s| == 0 then 0
    else CountKey(s[..|s| - 1], doctorId, date, slot) + (if InKey(s[|s| - 1], doctorId, date, slot) then 1 else 0)
  }

  /** The token numbers of a key's appointments, in booking order. */
  function KeyTokens(s: seq<Appointment>, doctorId: Id, date: string, slot: string): (t: seq<int>)
    ensures |t| == CountKey(s, doctorId, date, slot)
  {
    if |s| == 0 then []
    else KeyTokens(s[..|s| - 1], doctorId, date, slot)
         + (if InKey(s[|s| - 1], doctorId, date, slot) then [s[|s| - 1].tokenNumber] else [])
  }

  /** The i-th appointment's token is one more than the number of appointments
      of its key booked before it. */
  predicate TokenFollowsCount(s: seq<Appointment>, i: nat)
    requires i < |s|
  {
    s[i].tokenNumber == CountKey(s[..i], s[i].doctorId, s[i].date, s[i].slot) + 1
  }

  /** Every appointment's token follows the count of its key before it. */
  ghost predicate TokensSequential(s: seq<Appointment>) {
    forall i: nat :: i < |s| ==> TokenFollowsCount(s, i)
  }

  /** 1, 2, ..., n. */
  function Ordinals(n: nat): (r: seq<int>)
    ensures |r| == n
    ensures forall i :: 0 <= i < n ==> r[i] == i + 1
  {
    seq(n, i => i + 1)
  }

  /** The capacity check of the booking route, `!(count >= limit)`: a key that
      is not a slot has an undefined limit, and a comparison with undefined is false. */
  function HasRoom(doc: Doctor, slot: string, count: int): (r: bool)
    ensures slot == "morning" ==> (r <==> count < doc.maxMorning)
    ensures slot == "evening" ==> (r <==> count < doc.maxEvening)
    ensures slot != "morning" && slot != "evening" ==> r
  {
    match SlotLimit(doc, slot)
    case None => true
    case Some(limit) => count < limit
  }

  /** The key holds no more appointments than its doctor allows for the slot. */
  predicate KeyWithinCapacity(doctors: seq<Doctor>, s: seq<Appointment>, doctorId: Id, date: string, slot: string) {
    match FindDoctor(doctors, doctorId)
    case None => true
    case Some(k) =>
      match SlotLimit(doctors[k], slot)
      case None => true
      case Some(limit) => CountKey(s, doctorId, date, slot) <= limit
  }

  /** Every key in use is within its capacity. */
  ghost predicate WithinCapacity(doctors: seq<Doctor>, s: seq<Appointment>) {
    forall j :: 0 <= j < |s| ==> KeyWithinCapacity(doctors, s, s[j].doctorId, s[j].date, s[j].slot)
  }

  // ---------------------------------------------------------------------------
  // Counting
  // ---------------------------------------------------------------------------

  /** Appending an appointment adds one to its own key's count and nothing to any other. */
  lemma {:induction false} CountAppend(s: seq<Appointment>, a: Appointment, doctorId: Id, date: string, slot: string)
    ensures CountKey(s + [a], doctorId, date, slot)
         == CountKey(s, doctorId, date, slot) + (if InKey(a, doctorId, date, slot) then 1 else 0)
    ensures KeyTokens(s + [a], doctorId, date, slot)
         == KeyTokens(s, doctorId, date, slot) + (if InKey(a, doctorId, date, slot) then [a.tokenNumber] else [])
  {
    assert (s + [a])[..|s|] == s;
  }

  /** A longer prefix holds at least as many appointments of a key, and strictly
      more once it takes in one of them. */
  lemma {:induction false} CountPrefixGrows(s: seq<Appointment>, i: nat, j: nat, doctorId: Id, date: string, slot: string)
    requires i <= j <= |s|
    ensures CountKey(s[..i], doctorId, date, slot) <= CountKey(s[..j], doctorId, date, slot)
    ensures i < j && InKey(s[i], doctorId, date, slot) ==>
              CountKey(s[..i], doctorId, date, slot) < CountKey(s[..j], doctorId, date, slot)
    decreases j
  {
    if i < j {
      CountPrefixGrows(s, i, j - 1, doctorId, date, slot);
      assert s[..j] == s[..j - 1] + [s[j - 1]];
      CountAppend(s[..j - 1], s[j - 1], doctorId, date, slot);
      if j - 1 == i {
        assert s[j - 1] == s[i];
      }
    }
  }

  /** Two tables that agree on every appointment's key and token (they may
      differ in status, patient or documents). */
  predicate SameBookings(s: seq<Appointment>, t: seq<Appointment>) {
    |s| == |t|
    && forall i :: 0 <= i < |s| ==>
         s[i].doctorId == t[i].doctorId && s[i].date == t[i].date
         && s[i].slot == t[i].slot && s[i].tokenNumber == t[i].tokenNumber
  }

  lemma {:induction false} SameBookingsSameCount(s: seq<Appointment>, t: seq<Appointment>, doctorId: Id, date: string, slot: string)
    requires SameBookings(s, t)
    ensures CountKey(s, doctorId, date, slot) == CountKey(t, doctorId, date, slot)
  {
    if |s| > 0 {
      SameBookingsSameCount(s[..|s| - 1], t[..|t| - 1], doctorId, date, slot);
    }
  }

  /** The same, for every key at once. */
  lemma SameBookingsSameCounts(s: seq<Appointment>, t: seq<Appointment>)
    requires SameBookings(s, t)
    ensures forall doctorId, date, slot :: CountKey(t, doctorId, date, slot) == CountKey(s, doctorId, date, slot)
  {
    forall doctorId, date, slot
      ensures CountKey(t, doctorId, date, slot) == CountKey(s, doctorId, date, slot)
    {
      SameBookingsSameCount(s, t, doctorId, date, slot);
    }
  }

  // ---------------------------------------------------------------------------
  // Tokens
  // ---------------------------------------------------------------------------

  /** The token invariant holds of every prefix of a table that keeps it. */
  lemma PrefixKeepsTokens(s: seq<Appointment>, n: nat)
    requires TokensSequential(s) && n <= |s|
    ensures TokensSequential(s[..n])
  {
    var p := s[..n];
    forall i | 0 <= i < |p|
      ensures TokenFollowsCount(p, i)
    {
      assert TokenFollowsCount(s, i);
      assert p[..i] == s[..i];
    }
  }

  lemma OrdinalsAppend(c: nat)
    ensures Ordinals(c) + [c + 1] == Ordinals(c + 1)
  {
  }

  /** One more booking keeps a key's tokens equal to 1, 2, ..., n when it
      carries the token that follows the key's count. */
  lemma OrdinalsStep(init: seq<Appointment>, a: Appointment, doctorId: Id, date: string, slot: string)
    requires KeyTokens(init, doctorId, date, slot) == Ordinals(CountKey(init, doctorId, date, slot))
    requires InKey(a, doctorId, date, slot) ==> a.tokenNumber == CountKey(init, doctorId, date, slot) + 1
    ensures KeyTokens(init + [a], doctorId, date, slot) == Ordinals(CountKey(init + [a], doctorId, date, slot))
  {
    CountAppend(init, a, doctorId, date, slot);
    if InKey(a, doctorId, date, slot) {
      OrdinalsAppend(CountKey(init, doctorId, date, slot));
    }
  }

  /** Under the token invariant, the tokens of any key are exactly 1, 2, ..., n
      in booking order, n being the key's count: sequential bookings into a key
      that starts empty are numbered 1, 2, 3, ... */
  lemma {:induction false} TokensAreOrdinals(s: seq<Appointment>, doctorId: Id, date: string, slot: string)
    requires TokensSequential(s)
    ensures KeyTokens(s, doctorId, date, slot) == Ordinals(CountKey(s, doctorId, date, slot))
  {
    if |s| > 0 {
      var n := |s| - 1;
      var init, a := s[..n], s[n];
      PrefixKeepsTokens(s, n);
      TokensAreOrdinals(init, doctorId, date, slot);
      assert TokenFollowsCount(s, n);
      assert s == init + [a];
      OrdinalsStep(init, a, doctorId, date, slot);
    }
  }

  /** Under the token invariant, a later booking of the same key has a strictly
      larger token; in particular no two bookings of a key share a token. */
  lemma TokensIncrease(s: seq<Appointment>, i: nat, j: nat)
    requires TokensSequential(s)
    requires i < j < |s|
    requires InKey(s[j], s[i].doctorId, s[i].date, s[i].slot)
    ensures s[i].tokenNumber < s[j].tokenNumber
  {
    assert TokenFollowsCount(s, i) && TokenFollowsCount(s, j);
    CountPrefixGrows(s, i, j, s[i].doctorId, s[i].date, s[i].slot);
  }

  /** Under the token invariant, a token never exceeds the number of bookings of its key. */
  lemma TokenWithinCount(s: seq<Appointment>, i: nat)
    requires TokensSequential(s)
    requires i < |s|
    ensures 1 <= s[i].tokenNumber <= CountKey(s, s[i].doctorId, s[i].date, s[i].slot)
  {
    assert TokenFollowsCount(s, i);
    CountPrefixGrows(s, i, |s|, s[i].doctorId, s[i].date, s[i].slot);
    assert s[..|s|] == s;
  }

  // ---------------------------------------------------------------------------
  // What each table change does to the invariants
  // ---------------------------------------------------------------------------

  /** A booking that passed the capacity check and carries token count + 1
      keeps both invariants, and leaves its key within the slot's capacity. */
  lemma BookingKeepsLedger(doctors: seq<Doctor>, s: seq<Appointment>, a: Appointment, k: nat)
    requires FindDoctor(doctors, a.doctorId) == Some(k)
    requires SlotLimit(doctors[k], a.slot).Some?
    requires HasRoom(doctors[k], a.slot, CountKey(s, a.doctorId, a.date, a.slot))
    requires a.tokenNumber == CountKey(s, a.doctorId, a.date, a.slot) + 1
    ensures CountKey(s + [a], a.doctorId, a.date, a.slot) <= SlotLimit(doctors[k], a.slot).value
    ensures TokensSequential(s) ==> TokensSequential(s + [a])
    ensures WithinCapacity(doctors, s) ==> WithinCapacity(doctors, s + [a])
  {
    var t := s + [a];
    CountAppend(s, a, a.doctorId, a.date, a.slot);
    if TokensSequential(s) {
      forall i | 0 <= i < |t|
        ensures TokenFollowsCount(t, i)
      {
        if i < |s| {
          assert TokenFollowsCount(s, i);
          assert t[..i] == s[..i];
        } else {
          assert t[..i] == s;
        }
      }
    }
    if WithinCapacity(doctors, s) {
      forall j | 0 <= j < |t|
        ensures KeyWithinCapacity(doctors, t, t[j].doctorId, t[j].date, t[j].slot)
      {
        CountAppend(s, a, t[j].doctorId, t[j].date, t[j].slot);
        if !InKey(a, t[j].doctorId, t[j].date, t[j].slot) {
          assert j < |s| && t[j] == s[j];
        }
      }
    }
  }

  /** Changing what is not part of a booking (its status) keeps both invariants. */
  lemma SameBookingsKeepLedger(doctors: seq<Doctor>, s: seq<Appointment>, t: seq<Appointment>)
    requires SameBookings(s, t)
    ensures TokensSequential(s) ==> TokensSequential(t)
    ensures WithinCapacity(doctors, s) ==> WithinCapacity(doctors, t)
  {
    if TokensSequential(s) {
      forall i | 0 <= i < |t|
        ensures TokenFollowsCount(t, i)
      {
        assert TokenFollowsCount(s, i);
        assert SameBookings(s[..i], t[..i]);
        SameBookingsSameCount(s[..i], t[..i], t[i].doctorId, t[i].date, t[i].slot);
      }
    }
    if WithinCapacity(doctors, s) {
      forall j | 0 <= j < |t|
        ensures KeyWithinCapacity(doctors, t, t[j].doctorId, t[j].date, t[j].slot)
      {
        SameBookingsSameCount(s, t, t[j].doctorId, t[j].date, t[j].slot);
        assert KeyWithinCapacity(doctors, s, s[j].doctorId, s[j].date, s[j].slot);
      }
    }
  }

  /** Adding a doctor nobody has booked keeps every key within capacity. */
  lemma AddedDoctorKeepsCapacity(doctors: seq<Doctor>, s: seq<Appointment>, doc: Doctor)
    requires forall j :: 0 <= j < |s| ==> s[j].doctorId != doc.id
    requires WithinCapacity(doctors, s)
    ensures WithinCapacity(doctors + [doc], s)
  {
    forall j | 0 <= j < |s|
      ensures KeyWithinCapacity(doctors + [doc], s, s[j].doctorId, s[j].date, s[j].slot)
    {
      var id := s[j].doctorId;
      FirstAppendMiss(doctors, doc, (d: Doctor) => d.id == id);
      assert FindDoctor(doctors + [doc], id) == FindDoctor(doctors, id);
      match FindDoctor(doctors, id)
      case None =>
      case Some(k) => assert (doctors + [doc])[k] == doctors[k];
    }
  }

  /** Removing a doctor keeps every key within capacity: the removed doctor's
      keys are no longer checked and every other doctor is found unchanged. */
  lemma RemovedDoctorKeepsCapacity(doctors: seq<Doctor>, s: seq<Appointment>, k: nat)
    requires DistinctDoctorIds(doctors) && k < |doctors|
    requires WithinCapacity(doctors, s)
    ensures WithinCapacity(doctors[..k] + doctors[k + 1..], s)
  {
    var rest := doctors[..k] + doctors[k + 1..];
    forall j | 0 <= j < |s|
      ensures KeyWithinCapacity(rest, s, s[j].doctorId, s[j].date, s[j].slot)
    {
      var id := s[j].doctorId;
      match FindDoctor(rest, id)
      case None =>
      case Some(m) =>
        var i := if m < k then m else m + 1;
        assert doctors[i] == rest[m];
        FindDoctorAt(doctors, i);
    }
  }

  /** Lowering a capacity below what a key already holds breaks the capacity
      invariant: the admin update route does not preserve it. */
  lemma LoweredCapacityBreaksInvariant(doc: Doctor, a: Appointment)
    requires doc.maxMorning == 1 && a.doctorId == doc.id && a.slot == "morning"
    ensures WithinCapacity([doc], [a])
    ensures !WithinCapacity([doc.(maxMorning := 0)], [a])
  {
    assert [a][..0] == [];
    assert CountKey([a], a.doctorId, a.date, a.slot) == 1;
    assert FindDoctor([doc], a.doctorId) == Some(0);
    assert FindDoctor([doc.(maxMorning := 0)], a.doctorId) == Some(0);
    assert !KeyWithinCapacity([doc.(maxMorning := 0)], [a], a.doctorId, a.date, a.slot);
  }

  /** Changing doctors in anything but their ids, without lowering a capacity,
      keeps every key within capacity. */
  lemma UnloweredCapacitiesKeepCapacity(doctors: seq<Doctor>, changed: seq<Doctor>, s: seq<Appointment>)
    requires |doctors| == |changed|
    requires forall i :: 0 <= i < |doctors| ==>
               changed[i].id == doctors[i].id && changed[i].maxMorning >= doctors[i].maxMorning
               && changed[i].maxEvening >= doctors[i].maxEvening
    requires WithinCapacity(doctors, s)
    ensures WithinCapacity(changed, s)
  {
    forall j | 0 <= j < |s|
      ensures KeyWithinCapacity(changed, s, s[j].doctorId, s[j].date, s[j].slot)
    {
      var id := s[j].doctorId;
      match FindDoctor(doctors, id)
      case None =>
        assert FindDoctor(changed, id).None?;
      case Some(k) =>
        FirstIs(changed, (d: Doctor) => d.id == id, k);
    }
  }
}
