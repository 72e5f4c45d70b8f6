/** The User schema (models/User.js): patients and admins share one collection. */
module UserModel {
  import opened Common
  import opened Text
  import opened Fields

  datatype User = User(
    id: Id,
    name: string,
    email: string,
    password: string,
    gender: string,
    age: int,
    phone: string,
    role: string)

  /** `role`: required, 'admin' or 'patient'. */
  predicate ValidUserRole(s: string) {
    s == "admin" || s == "patient"
  }

  /** Everything the schema checks on `save()`; `email` is checked after its setters ran. */
  predicate ValidUser(u: User) {
    && ValidName(u.name)
    && EmailMatches(u.email)
    && ValidPassword(u.password)
    && ValidGender(u.gender)
    && 0 <= u.age <= 120
    && IsPhone(u.phone)
    && ValidUserRole(u.role)
  }

  /** The document `new User({...})` builds: the email goes through the
      lowercase and trim setters, every other field is stored as given. */
  function NewUser(id: Id, name: string, email: string, password: string, role: string,
                   age: int, gender: string, phone: string): (u: User)
    ensures u.email == NormalizeEmail(email)
    ensures u.id == id && u.name == name && u.password == password && u.role == role
    ensures u.age == age && u.gender == gender && u.phone == phone
  {
    User(id, name, NormalizeEmail(email), password, gender, age, phone, role)
  }

  /** A valid user is never a doctor: that role lives only in the Doctors table. */
  lemma ValidUserIsNotDoctor(u: User)
    requires ValidUser(u)
    ensures u.role != "doctor"
    ensures u.role == "admin" || u.role == "patient"
  {
  }

  /** Index of the user with this id (`findById`). */
  function FindUser(s: seq<User>, id: Id): (r: Option<nat>)
    ensures r.Some? ==> r.value < |s| && s[r.value].id == id
    ensures r.None? <==> forall j :: 0 <= j < |s| ==> s[j].id != id
  {
    First(s, (u: User) => u.id == id)
  }
}
