# DocSpot backend: a Dafny model

DocSpot is a doctor-appointment service: an Express backend over three
MongoDB collections (users, doctors, appointments) with three routers. The
patient router handles registration, login, doctor search, booking and
cancellation. The doctor router handles login, the appointment list and
status updates. The admin router handles registration, login, doctor search
and doctor add/update/delete. The `auth(role)` middleware guards the
protected routes by checking a JWT cookie.

This project models those handlers and the three Mongoose schemas:

- **Collections.** They are the fields of one class, `Store.Db`, held as
  sequences in insertion order, with a counter for fresh ids.
- **Writes.** Every write goes through a `Db` method that states the whole
  new state. `save()` validates against the schema and writes nothing when
  validation fails. The `find…AndUpdate` calls write without validating.
- **Handlers.** A handler that writes is a method over the store. A
  handler that only reads is a function.
- **Replies.** A reply is `Ok(value)`, `Fail(status, message)`, or
  `Unhandled`. `Unhandled` stands for a rejected promise that the handler
  does not catch (register).

The properties proved are these:

- **Booking ledger.** Two invariants are kept by every handler:
  - the tokens of a (doctor, date, slot) key are 1, 2, 3, … in booking
    order;
  - no key holds more bookings than its doctor's capacity for the slot.

  Admin update is the exception: lowering a capacity breaks the capacity
  invariant, and a lemma exhibits this.
- **Authentication.** A registered user can log in with the same email and
  password.
- **Gate.** The gate's decisions are pinned down case by case.
- **Search.** The search returns exactly the doctors that match the query,
  whatever the query's case.
- **Date pattern.** The schema's date pattern accepts exactly the
  renderings of (year, month, day) triples. It makes no calendar check.
- **Email pattern.** The email pattern is characterised by its decisive
  characters.

The admin router's register and login handlers (`admin.js:24-50`) are the
same code as the patient router's (`patient.js:25-51`). Both are modelled
once, by `Accounts.Register` and `Accounts.UserLogin`.

Some behaviours of the code that the model keeps as written:

- **Status update.** The handler assigns the status and calls `save()`
  (`doctor.js:76-77`), which applies the status enum
  (`Appointment.js:33-40`), so a value outside the four statuses answers 500
  and writes nothing.
- **Validation errors.** A failing `save()` answers 500 from the handler's
  `catch` (`patient.js:123-124`, `admin.js:95-97`, `doctor.js:79-80`), or is
  not caught at all in register (`patient.js:32`).
- **Role.** The admin update writes every field of the body, `role`
  included (`admin.js:121`), so it can change a doctor's role.
- **Doctor email uniqueness.** Only the `unique` index of `Doctor.js:12`
  could enforce it, and no handler checks it; see "Left out".

Parameters stand in for what the model cannot see:

- **bcrypt.** `hash: string -> string` stands for `bcrypt.hash`. The
  comparison `bcrypt.compare(p, h)` is `hash(p) == h`.
- **JWT.** `verify: string -> Option<Principal>` stands for `jwt.verify`
  with the server's secret.
- **Email.** `emailSent: bool` is the outcome of the confirmation email.

## Model

| member | source | states |
|---|---|---|
| Auth.Gate | Project_Files/backend/middleware/auth.js:2-15 | no cookie is 401; a token `jwt.verify` rejects is 400; 403 exactly when the token has a role, a role is required, and the two differ; allowed exactly otherwise, with the decoded claims attached |
| Auth.GateDenials | Project_Files/backend/middleware/auth.js:5-12 | every denial is one of the three the middleware sends (401, 400, 403) |
| Auth.AllowedPrincipalHasRoleOrNone | Project_Files/backend/middleware/auth.js:8 | a route behind `auth(role)` runs only for that role or for a token that carries no role |
| Auth.PermissiveCases | Project_Files/backend/middleware/auth.js:8 | with no required role every verified token passes; a roleless token passes any role check |
| Fields.FormatDate | Project_Files/backend/models/Appointment.js:17-21 | every (year, month, day) that fits 4/2/2 digits renders to a string the date pattern accepts, and parsing it gives the triple back |
| Fields.ParsedDateFormatsBack | Project_Files/backend/models/Appointment.js:17-21 | every string the date pattern accepts is the rendering of the triple it carries (with `FormatDate`, the pattern is a bijection) |
| Fields.NoCalendarCheck | Project_Files/backend/routes/doctor.js:52-57 | the pattern is all the check does: "2025-13-45" passes; "2025-6-01" and a trailing space fail |
| Fields.ValueOfDigits | Project_Files/backend/models/Appointment.js:20 | reading a zero-padded rendering of n gives n |
| Fields.DigitsOfValue | Project_Files/backend/models/Appointment.js:20 | re-rendering the value of a digit string gives the string back |
| Fields.PhoneIsTenDigitNumber | Project_Files/backend/models/User.js:34-38 | the accepted phones are exactly the ten-digit zero-padded renderings of numbers below 10^10 |
| Fields.NormalizeEmail | Project_Files/backend/models/User.js:10-17 | the stored (and queried) email is the input lower-cased with only white space cut from both ends: a piece of the lower-cased input surrounded by white space, with no capitals and no white space at its ends |
| Fields.NormalizeEmailIdempotent | Project_Files/backend/models/Doctor.js:10-17 | applying the lowercase and trim setters twice is applying them once |
| Fields.EmailMatchesIsRegex | Project_Files/backend/models/User.js:14 | the reduced check (an '@' with a non-space before it, then a '.' with only non-space between them and a non-space after) accepts exactly what the unanchored regular expression matches |
| Fields.EmailExamples | Project_Files/backend/models/Doctor.js:14 | surrounding text and doubled separators pass; a missing dot or a space before the '@' fails |
| Text.ToLower | Project_Files/backend/models/User.js:15 | same length, no capitals, non-capitals kept, and the same character up to case at every position |
| Text.Trim | Project_Files/backend/models/User.js:16 | the result is a middle piece of the input, with only white space cut from either end and none left at its ends |
| Text.TrimKeepsNoUpper | Project_Files/backend/models/User.js:15-16 | a trimmed piece of a string without capitals has none either |
| Text.TrimNoOp | Project_Files/backend/models/User.js:16 | a string with no white space at its ends is its own trim |
| Text.ToLowerNoOp | Project_Files/backend/models/User.js:15 | a string without capitals is its own lower-case form |
| Text.ContainsIgnoringCaseFacts | Project_Files/backend/routes/admin.js:106-108 | every field contains the empty query, and lower-casing the field or the query does not change the answer |
| AppointmentModel.NewAppointment | Project_Files/backend/models/Appointment.js:33-54 | the built appointment carries the given ids, date, slot and token, with status "pending" and documents [] when absent |
| AppointmentModel.NewAppointmentValid | Project_Files/backend/models/Appointment.js:14-54 | a freshly built appointment validates exactly when its date matches the pattern, its slot is morning or evening, and every given document starts with "http" |
| AppointmentModel.FindAppointment | Project_Files/backend/routes/doctor.js:74-75 | the index found holds that id; nothing is found exactly when no appointment has it |
| UserModel.NewUser | Project_Files/backend/routes/patient.js:30-31 | the user stored carries the normalized email and every other field as given |
| UserModel.ValidUserIsNotDoctor | Project_Files/backend/models/User.js:39-43 | a user that passes the schema is an admin or a patient, never a doctor |
| UserModel.FindUser | Project_Files/backend/routes/patient.js:99 | the index found holds that id; nothing is found exactly when no user has it |
| DoctorModel.NewDoctor | Project_Files/backend/routes/admin.js:77-91 | the doctor built stores the given password value and the normalized email; absent capacities default to 0, an absent image to the stock icon, the role to "doctor"; the other fields are copied |
| DoctorModel.DefaultImageUrlIsLink | Project_Files/backend/models/Doctor.js:50-59 | the default image passes the image rule |
| DoctorModel.DefaultsAreValid | Project_Files/backend/models/Doctor.js:50-79 | a doctor built without image and capacities gets a valid link, capacities 0 and role "doctor", and validates exactly when the name, email, password, age, gender and the required text fields the caller supplied pass their rules |
| DoctorModel.SlotLimit | Project_Files/backend/routes/patient.js:102 | `maxAppointments[slot]` is defined exactly for "morning" and "evening" and is that slot's capacity |
| DoctorModel.FindDoctor | Project_Files/backend/routes/patient.js:98 | `findById` over the doctors: the index found holds that id; nothing is found exactly when no doctor has it |
| DoctorModel.FindDoctorAt | Project_Files/backend/routes/patient.js:98 | with distinct ids, looking a doctor up by its id finds that very doctor |
| Common.First | Project_Files/backend/routes/patient.js:27 | the index found matches, nothing before it matches, and nothing is found exactly when nothing matches |
| Common.Filter | Project_Files/backend/routes/admin.js:111 | an element is in the result exactly when it is in the input and matches, and each matching element occurs as many times as in the input (non-matching ones not at all) |
| Common.FirstAppendHit | Project_Files/backend/routes/patient.js:42 | a matching element appended where nothing matched before is found at the end |
| Common.FirstAppendMiss | Project_Files/backend/routes/patient.js:98 | appending a non-matching element leaves the first match where it was |
| Common.FilterKeepsAll | Project_Files/backend/routes/admin.js:105-111 | a filter that rejects nothing returns its input unchanged |
| Common.FilterAgree | Project_Files/backend/routes/admin.js:105-111 | filters by conditions that agree on every element give the same result |
| SlotLedger.HasRoom | Project_Files/backend/routes/patient.js:102-103 | `count >= limit` refuses exactly at the slot's capacity for "morning" and "evening", and never refuses another slot name, whose limit is undefined |
| SlotLedger.CountKey | Project_Files/backend/routes/patient.js:101 | the count of a key is at most the table size, and is 0 exactly when no appointment has the key (cancelled ones included) |
| SlotLedger.KeyTokens | Project_Files/backend/routes/patient.js:104 | a key lists exactly as many tokens as its count |
| SlotLedger.CountAppend | Project_Files/backend/routes/patient.js:101-107 | an insert adds one to its own key's count and its token to that key's list, and changes no other key |
| SlotLedger.CountPrefixGrows | Project_Files/backend/routes/patient.js:101 | a longer prefix counts at least as many bookings of a key, and strictly more once it takes in one of them |
| SlotLedger.SameBookingsSameCount | Project_Files/backend/routes/patient.js:161-165 | tables that agree on keys and tokens have the same count for every key |
| SlotLedger.SameBookingsSameCounts | Project_Files/backend/routes/patient.js:161-165 | the same, for all keys at once |
| SlotLedger.PrefixKeepsTokens | Project_Files/backend/routes/patient.js:104 | the token invariant holds of every prefix of a table that keeps it |
| SlotLedger.OrdinalsStep | Project_Files/backend/routes/patient.js:104-107 | one more booking carrying count + 1 keeps a key's tokens equal to 1..n |
| SlotLedger.TokensAreOrdinals | Project_Files/backend/routes/patient.js:101-107 | under the token invariant, a key's tokens are exactly 1, 2, …, n in booking order |
| SlotLedger.TokensIncrease | Project_Files/backend/routes/patient.js:104 | under the token invariant, a later booking of the same key has a strictly larger token, so no two share one |
| SlotLedger.TokenWithinCount | Project_Files/backend/routes/patient.js:104 | under the token invariant, every token lies between 1 and its key's count |
| SlotLedger.BookingKeepsLedger | Project_Files/backend/routes/patient.js:101-107 | a booking that passed the capacity check and carries count + 1 leaves its key within the slot's capacity and keeps both invariants |
| SlotLedger.SameBookingsKeepLedger | Project_Files/backend/routes/doctor.js:76-77 | changing only statuses (or patients or documents) keeps both invariants |
| SlotLedger.AddedDoctorKeepsCapacity | Project_Files/backend/routes/admin.js:93 | adding a doctor that no appointment refers to keeps every key within capacity |
| SlotLedger.RemovedDoctorKeepsCapacity | Project_Files/backend/routes/admin.js:132 | removing a doctor keeps every remaining key within capacity |
| SlotLedger.UnloweredCapacitiesKeepCapacity | Project_Files/backend/routes/admin.js:121 | changing doctors in anything but their ids, without lowering either capacity, keeps every key within capacity |
| SlotLedger.LoweredCapacityBreaksInvariant | Project_Files/backend/routes/admin.js:121 | lowering a capacity below what a key holds breaks the capacity invariant |
| Store.Db.SaveNewAppointment | Project_Files/backend/routes/patient.js:104-107 | the insert happens exactly when the appointment validates; otherwise nothing changes |
| Store.Db.SaveNewUser | Project_Files/backend/routes/patient.js:31-32 | the insert happens exactly when the user validates; otherwise nothing changes; user emails stay distinct |
| Store.Db.SaveNewDoctor | Project_Files/backend/routes/admin.js:78-93 | the insert happens exactly when the doctor validates; otherwise nothing changes |
| Store.Db.SaveAppointmentStatus | Project_Files/backend/routes/doctor.js:76-77 | the status is written exactly when it is one of the four statuses; otherwise nothing changes |
| Store.Db.MarkCancelled | Project_Files/backend/routes/patient.js:161-165 | exactly that appointment's status becomes "cancelled", with no validation |
| Store.Db.WriteDoctor | Project_Files/backend/routes/admin.js:121 | exactly that doctor is replaced, unvalidated, with its id kept |
| Store.Db.DeleteDoctorAt | Project_Files/backend/routes/admin.js:132 | exactly that doctor is removed |
| Accounts.Login | Project_Files/backend/routes/patient.js:40-51 | 404 exactly when no account has the normalized email; a 400 comes from an account with that email whose stored hash differs; success returns the session of an account with that email whose hash matches |
| Accounts.SameCredentialsSameOutcome | Project_Files/backend/routes/doctor.js:24-35 | login reads only emails and stored hashes: tables agreeing on those give the same success and the same failure reply |
| Accounts.LoginByUniqueEmail | Project_Files/backend/routes/patient.js:42-46 | with distinct emails, login succeeds exactly when the password hashes to that account's stored value, and is 400 otherwise |
| Accounts.AddedAccountLogsIn | Project_Files/backend/routes/patient.js:40-51 | an account appended with a fresh email and the hash of a password logs in with that email (any case, any surrounding space) and that password |
| Accounts.LoginAfterInsert | Project_Files/backend/routes/patient.js:30-51 | a user inserted with a fresh email and a hashed password logs in with them |
| Accounts.UserAccountsAppend | Project_Files/backend/routes/patient.js:32 | the login view of an appended user table is the old view plus the new account |
| Accounts.Register | Project_Files/backend/routes/patient.js:25-37 | 400 exactly when a user already has the normalized email; otherwise the user is built with the hashed password and saved; an invalid user is unhandled and writes nothing; on success exactly that user is appended and logging in with the same email and password returns the same session; both store invariants are kept |
| Accounts.UserLoginIsOwnPassword | Project_Files/backend/routes/admin.js:39-50 | in a valid store, a user's login is decided by that user's own stored hash |
| Accounts.UserLogin | Project_Files/backend/routes/admin.js:39-50 | the reply is success, 404 or 400; 404 exactly when no user has the normalized email; a 400 comes from a user with that email whose stored hash differs; success carries the id, role and name of a user whose stored hash matches |
| Accounts.DoctorLogin | Project_Files/backend/routes/doctor.js:24-35 | the same over the doctors, with the doctor's stored role in the session |
| Accounts.DoctorLoginIsOwnPassword | Project_Files/backend/routes/doctor.js:26-30 | the first doctor with the normalized email decides: success with its session exactly when the password hashes to its stored value, 400 otherwise |
| Search.SearchDoctors | Project_Files/backend/routes/admin.js:103-116 | a doctor is returned exactly when it matches every non-empty query field, case-insensitively; each match appears as often as in the collection and nothing else appears; the result is no longer than the collection |
| Search.PatientSearch | Project_Files/backend/routes/patient.js:61-75 | the same, membership, multiplicity and length, on speciality and location only |
| Search.EmptyQueryReturnsAll | Project_Files/backend/routes/patient.js:65-69 | an empty query returns the whole collection in order |
| Search.QueryCaseIgnored | Project_Files/backend/routes/admin.js:106-108 | lower-casing the query fields returns the same doctors in the same order |
| PatientRoutes.SlotFull | Project_Files/backend/routes/patient.js:98-103 | the booking is refused as full exactly when the first doctor with the id has a capacity for the slot and the key's count has reached it; an unknown doctor or a slot name with no capacity is never full |
| PatientRoutes.Booked | Project_Files/backend/routes/patient.js:104 | the booking built has the key asked for, the patient, the fresh id, token count + 1, status "pending" and the request's documents (none when absent) |
| PatientRoutes.Book | Project_Files/backend/routes/patient.js:89-126 | 404 exactly for an unknown doctor; 400 exactly when the key is at capacity; any other failure is 500; the appointment is inserted exactly when the doctor exists, the slot has room and it validates; once inserted it stays even when the reply is 500 (no patient record, email failed); success returns the stored token; on success the key is within capacity; both ledger invariants are kept |
| PatientRoutes.FindOwned | Project_Files/backend/routes/patient.js:161-162 | finds an appointment with that id belonging to that patient, or none exactly when there is none |
| PatientRoutes.FindOwnedIsOwnership | Project_Files/backend/routes/patient.js:161-166 | with distinct ids, the cancel filter finds the appointment with that id exactly when it belongs to the patient |
| PatientRoutes.Cancel | Project_Files/backend/routes/patient.js:159-171 | succeeds exactly when an appointment has that id and belongs to the patient; then only its status changes, to "cancelled", and it is returned; 404 otherwise, with nothing changed; every key's count is unchanged; both ledger invariants are kept |
| DoctorRoutes.DoctorAppointments | Project_Files/backend/routes/doctor.js:45-67 | 400 exactly when a date is given that does not match the pattern; otherwise exactly the principal's own appointments (on that date, if given), each as often as it is stored, and no others |
| DoctorRoutes.ListedAreOwn | Project_Files/backend/routes/doctor.js:51-61 | every listed appointment belongs to the asking doctor and has the requested date |
| DoctorRoutes.DatedListNarrows | Project_Files/backend/routes/doctor.js:52-58 | the dated list is the part of the undated list on that date |
| DoctorRoutes.UpdateStatus | Project_Files/backend/routes/doctor.js:71-82 | 404 exactly for an unknown id; 500 exactly for a known id and a value outside the four statuses; otherwise only that appointment's status changes; both ledger invariants are kept |
| AdminRoutes.AddDoctor | Project_Files/backend/routes/admin.js:60-99 | stored exactly when the doctor built with the hashed password validates (500 and nothing stored otherwise); the password stored is the hash; both ledger invariants are kept |
| AdminRoutes.ApplyPatch | Project_Files/backend/routes/admin.js:121 | for every field the body can carry, a present value overwrites the stored one and an absent one keeps it; the id never changes; the email is normalized; the password is written as given |
| AdminRoutes.PatchLaws | Project_Files/backend/routes/admin.js:121 | an empty body changes nothing, and applying a body twice is applying it once |
| AdminRoutes.UpdateDoctor | Project_Files/backend/routes/admin.js:119-127 | 404 exactly for an unknown id; otherwise exactly that doctor becomes the patched one and is returned; tokens stay sequential; capacities stay within bounds whenever neither capacity of the doctor is lowered |
| AdminRoutes.DeleteDoctor | Project_Files/backend/routes/admin.js:130-138 | 404 exactly for an unknown id; otherwise exactly that doctor is removed and no doctor with that id remains; appointments are untouched; both ledger invariants are kept |
| AdminRoutes.PatchedPasswordLocksOut | Project_Files/backend/routes/admin.js:121 | as written, an update whose body carries a password no hash produces (the dashboard's empty string) makes every login with the doctor's email fail with 400 |
| AdminRoutes.ApplyPatchHashed | Project_Files/backend/routes/admin.js:77-87 | corrected update: a non-empty body password is stored hashed; an absent or empty one keeps the stored hash; every other field is as `ApplyPatch` writes it |
| AdminRoutes.HashedPatchLogsIn | Project_Files/backend/routes/admin.js:119-127 | with the corrected update, the doctor logs in with a new non-empty password |
| AdminRoutes.BlankPasswordKeepsLogin | Project_Files/backend/routes/admin.js:119-127 | with the corrected update, a dashboard edit with an empty password that keeps the email leaves every login outcome as it was: the same passwords succeed and failures give the same reply |
| Scenarios.AddRao | Project_Files/backend/routes/admin.js:60-99 | adding a valid doctor to an empty store leaves exactly that doctor, with both invariants |
| Scenarios.Setup | Project_Files/backend/routes/patient.js:25-37 | then registering a valid patient adds exactly one user |
| Scenarios.SlotFillsUp | Project_Files/backend/routes/patient.js:101-104 | with a morning capacity of 1, the first booking gets token 1 and the second is told "Slot full" |
| Scenarios.AdminGateScenario | Project_Files/backend/middleware/auth.js:4-10 | on an admin route, no cookie is 401, a patient token is 403, and an admin token passes |

## Left out

- Logout, profile, update-profile, the patient's appointment list and the doctor lists are not part of this model. The profile update (`patient.js:139-146`) writes the raw body into the user with `findByIdAndUpdate` and no validators, so it can store role "doctor", an invalid email or an unhashed password; the store invariant that every user passes its schema is a property of the modelled routes only.
- HTTP, cookies, JSON bodies and the Express framework are not modelled; a handler's reply is its status and message.
- JWT signing and expiry: `verify` is a parameter, and signing tokens at login and registration is not modelled. The session's claims are returned instead.
- bcrypt: `hash` is a parameter, and salting is not modelled, so a password always hashes to one value.
- The confirmation email is the parameter `emailSent`. The email's text is not modelled.
- Concurrency: requests are taken one at a time. Two bookings that race between the count and the insert can break both ledger invariants; this is not modelled.
- Unique indexes on `email` are not modelled. Users' emails stay distinct through the register guard. Doctors' emails may repeat; login takes the first match.
- Malformed ids and type mismatches (Mongoose `CastError`), and the numeric casting of body values, are not modelled.
- A body without `status` in the status update unsets the field; the model takes the status as a string.
- Mongoose `Number` paths (`age`, `maxAppointments.morning`, `maxAppointments.evening`) are integers here. The schema admits fractions: a capacity of 1.5 passes `min: 0` (`Doctor.js:60-71`), and `count >= 1.5` lets a second booking into that slot (`patient.js:103`). So SlotLedger.WithinCapacity is proved for integer capacities only, which is what the admin dashboard sends (`parseInt`, `AdminDashboard.jsx:233-234`).
- String lengths (`minlength`/`maxlength` of names and passwords) count Unicode characters here; JavaScript counts UTF-16 code units, which differs for characters outside the Basic Multilingual Plane.
- A `maxAppointments` object with only one of its two slots is not modelled: a body carries the object whole or not at all.
- Passwords: the `minlength: 6` rule applies to the stored hash, not to the password the user typed. The model follows this.
- Text.ToLower: lowers ASCII capitals only. JavaScript lowers every Unicode letter.
- Text.ContainsIgnoringCase: treats a search query as plain text. Regular-expression metacharacters in a query are not modelled.
- Search.SearchDoctors: the 500 reply of a failing `find` is not modelled, as the in-memory find cannot fail.
- `patient.js` imports `../models/user` in lower case, which resolves only on a case-insensitive file system; the model assumes it resolves to `User.js`.
- AdminRoutes.UpdateDoctor: keeps the capacity invariant only when neither capacity is lowered. The handler does not check existing bookings, so lowering a capacity below a key's count breaks the invariant (see `SlotLedger.LoweredCapacityBreaksInvariant`). The dashboard's edit sends the stored `maxAppointments` back unchanged unless the admin edits it (`AdminDashboard.jsx:133`).
- Scenarios.SlotFillsUp: asks of `hash` only the 60-character length of the two passwords it uses, rather than of every bcrypt output.

## Findings

| source | as written | input that shows it | evidently intended | confidence | as-written member | corrected member |
|---|---|---|---|---|---|---|
| Project_Files/backend/routes/admin.js:121 | the update writes the body's `password` into the doctor record verbatim, without hashing; the admin dashboard (`Project_Files/frontend/src/pages/dashboards/AdminDashboard.jsx:119-135`, sent at line 72) puts `password: ''` in every edit | editing any field of a doctor from the dashboard: the stored password becomes "", no bcrypt hash equals it, and every later doctor login answers 400 | hash a new password before storing it, as add-doctor does, and keep the stored hash when the password box is left empty | high by reading, not executed | AdminRoutes.PatchedPasswordLocksOut | AdminRoutes.ApplyPatchHashed, AdminRoutes.HashedPatchLogsIn, AdminRoutes.BlankPasswordKeepsLogin |
