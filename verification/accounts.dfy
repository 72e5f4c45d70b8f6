/** Registration and login.  The patient router (routes/patient.js) and the
    admin router (routes/admin.js) carry the same register and login
    handlers over the users collection; the doctor router (routes/doctor.js)
    carries the same login over the doctors collection.  Password hashing
    (`bcrypt.hash`) is the parameter `hash`; `bcrypt.compare(p, h)` is
    `hash(p) == h`. */
module Accounts {
  import opened Common
  import opened Text
  import opened Fields
  import opened UserModel
  import opened DoctorModel
  import opened Auth
  import opened Store

  /** What login reads from a stored user or doctor. */
  datatype Account = Account(id: Id, email: string, password: string, name: string, role: string)

  /** What a successful login or registration sends back: the claims signed
      into the `token` cookie, and the `user` object of the body, which holds
      the name and the role and nothing else. */
  datatype Session = Session(claims: Principal, name: string, role: string)

  function SessionOf(a: Account): Session {
    Session(Principal(a.id, a.role), a.name, a.role)
  }

  function UserAccount(u: User): Account {
    Account(u.id, u.email, u.password, u.name, u.role)
  }

  function DoctorAccount(d: Doctor): Account {
    Account(d.id, d.email, d.password, d.name, d.role)
  }

  function UserAccounts(users: seq<User>): (r: seq<Account>)
    ensures |r| == |users|
    ensures forall i :: 0 <= i < |users| ==> r[i] == UserAccount(users[i])
  {
    seq(|users|, i requires 0 <= i < |users| => UserAccount(users[i]))
  }

  function DoctorAccounts(doctors: seq<Doctor>): (r: seq<Account>)
    ensures |r| == |doctors|
    ensures forall i :: 0 <= i < |doctors| ==> r[i] == DoctorAccount(doctors[i])
  {
    seq(|doctors|, i requires 0 <= i < |doctors| => DoctorAccount(doctors[i]))
  }

  predicate DistinctEmails(accounts: seq<Account>) {
    forall i, j :: 0 <= i < j < |accounts| ==> accounts[i].email != accounts[j].email
  }

  /** The login handler: `findOne({ email })` (the query value goes through the
      email setters), then the password comparison.  It answers 404 when no
      account has the email, 400 when the first account that has it was
      registered with another password, and the session of that account otherwise. */
  function Login(accounts: seq<Account>, email: string, password: string, hash: string -> string): (r: Reply<Session>)
    ensures r.Ok? || r == Fail(404, "User not found") || r == Fail(400, "Invalid credentials")
    ensures r == Fail(404, "User not found")
        <==> forall j :: 0 <= j < |accounts| ==> accounts[j].email != NormalizeEmail(email)
    ensures r == Fail(400, "Invalid credentials") ==>
              exists k | 0 <= k < |accounts| ::
                accounts[k].email == NormalizeEmail(email) && hash(password) != accounts[k].password
    ensures r.Ok? ==>
              exists k | 0 <= k < |accounts| ::
                accounts[k].email == NormalizeEmail(email) && hash(password) == accounts[k].password
                && r.value == SessionOf(accounts[k])
  {
    var e := NormalizeEmail(email);
    match First(accounts, (a: Account) => a.email == e)
    case None => Fail(404, "User not found")
    case Some(k) =>
      if hash(password) == accounts[k].password then Ok(SessionOf(accounts[k]))
      else Fail(400, "Invalid credentials")
  }

  /** With distinct emails the outcome is decided by the one account that has
      the email: success exactly when the password hashes to its stored value. */
  lemma LoginByUniqueEmail(accounts: seq<Account>, k: nat, email: string, password: string, hash: string -> string)
    requires DistinctEmails(accounts)
    requires k < |accounts| && accounts[k].email == NormalizeEmail(email)
    ensures Login(accounts, email, password, hash)
         == if hash(password) == accounts[k].password then Ok(SessionOf(accounts[k]))
            else Fail(400, "Invalid credentials")
  {
    var e := NormalizeEmail(email);
    FirstIs(accounts, (a: Account) => a.email == e, k);
  }

  /** Login reads only the email and the stored hash: account tables that agree
      on both, position by position, give the same outcome, and the same reply
      whenever it is a failure. */
  lemma SameCredentialsSameOutcome(before: seq<Account>, after: seq<Account>, email: string, password: string,
                                   hash: string -> string)
    requires |before| == |after|
    requires forall i :: 0 <= i < |before| ==> before[i].email == after[i].email && before[i].password == after[i].password
    ensures Login(after, email, password, hash).Ok? <==> Login(before, email, password, hash).Ok?
    ensures Login(after, email, password, hash).Fail? ==> Login(after, email, password, hash) == Login(before, email, password, hash)
  {
    var e := NormalizeEmail(email);
    var m := First(before, (a: Account) => a.email == e);
    if m.Some? {
      FirstIs(after, (a: Account) => a.email == e, m.value);
    }
  }

  /** An account added with a fresh email and the hash of a password can log in
      with that email (in any case, with any surrounding space) and that password. */
  lemma AddedAccountLogsIn(accounts: seq<Account>, a: Account, email: string, password: string, hash: string -> string)
    requires a.email == NormalizeEmail(email) && a.password == hash(password)
    requires forall j :: 0 <= j < |accounts| ==> accounts[j].email != a.email
    ensures Login(accounts + [a], email, password, hash) == Ok(SessionOf(a))
  {
    var e := NormalizeEmail(email);
    FirstAppendHit(accounts, a, (x: Account) => x.email == e);
  }

  /** A user inserted with a fresh email and the hash of a password can log in
      with that email and password. */
  lemma LoginAfterInsert(users: seq<User>, u: User, email: string, password: string, hash: string -> string)
    requires u.email == NormalizeEmail(email) && u.password == hash(password)
    requires forall j :: 0 <= j < |users| ==> users[j].email != u.email
    ensures Login(UserAccounts(users + [u]), email, password, hash) == Ok(SessionOf(UserAccount(u)))
  {
    var before := UserAccounts(users);
    UserAccountsAppend(users, u);
    forall j | 0 <= j < |before|
      ensures before[j].email != UserAccount(u).email
    {
      assert before[j] == UserAccount(users[j]);
    }
    AddedAccountLogsIn(before, UserAccount(u), email, password, hash);
  }

  lemma UserAccountsAppend(users: seq<User>, u: User)
    ensures UserAccounts(users + [u]) == UserAccounts(users) + [UserAccount(u)]
  {
    var l, r := UserAccounts(users + [u]), UserAccounts(users) + [UserAccount(u)];
    assert |l| == |r|;
    forall i | 0 <= i < |l|
      ensures l[i] == r[i]
    {
      if i < |users| {
        assert (users + [u])[i] == users[i];
      }
    }
  }

  /** The register handler.  An email some user already has (after the email
      setters) is refused with 400 and nothing is written.  Otherwise the user
      is built with the hashed password and saved; a save that fails validation
      rejects the handler's promise, which no `catch` handles.  On success the
      new user can log in with the same email and password. */
  method Register(db: Db, name: string, email: string, password: string, role: string,
                  age: int, gender: string, phone: string, hash: string -> string)
    returns (r: Reply<Session>)
    requires db.Valid()
    modifies db
    ensures db.Valid()
    ensures db.doctors == old(db.doctors) && db.appointments == old(db.appointments)
    ensures r.Ok? || r.Unhandled? || r == Fail(400, "Email already in use")
    ensures r == Fail(400, "Email already in use")
        <==> exists j | 0 <= j < |old(db.users)| :: old(db.users)[j].email == NormalizeEmail(email)
    ensures var u := NewUser(old(db.nextId), name, email, hash(password), role, age, gender, phone);
      && (r.Unhandled? <==> r != Fail(400, "Email already in use") && !ValidUser(u))
      && (r.Ok? ==> db.users == old(db.users) + [u] && db.nextId == old(db.nextId) + 1
                    && r.value == SessionOf(UserAccount(u)))
    ensures !r.Ok? ==> db.users == old(db.users) && db.nextId == old(db.nextId)
    ensures r.Ok? ==> Login(UserAccounts(db.users), email, password, hash) == r
    ensures old(db.Ledger()) ==> db.Ledger()
  {
    var e := NormalizeEmail(email);
    var existing := First(db.users, (u: User) => u.email == e);
    if existing.Some? {
      assert old(db.users)[existing.value].email == NormalizeEmail(email);
      return Fail(400, "Email already in use");
    }
    var hashed := hash(password);
    var u := NewUser(db.nextId, name, email, hashed, role, age, gender, phone);
    var saved := db.SaveNewUser(u);
    if !saved {
      assert db.users == old(db.users) && db.nextId == old(db.nextId);
      return Unhandled;
    }
    r := Ok(SessionOf(UserAccount(u)));
    assert db.users == old(db.users) + [u];
    LoginAfterInsert(old(db.users), u, email, password, hash);
  }

  /** The stored users have distinct emails, so a user's login is decided by
      that user's own stored password. */
  lemma UserLoginIsOwnPassword(db: Db, k: nat, email: string, password: string, hash: string -> string)
    requires db.Valid() && k < |db.users| && db.users[k].email == NormalizeEmail(email)
    ensures Login(UserAccounts(db.users), email, password, hash)
         == if hash(password) == db.users[k].password then Ok(SessionOf(UserAccount(db.users[k])))
            else Fail(400, "Invalid credentials")
  {
    LoginByUniqueEmail(UserAccounts(db.users), k, email, password, hash);
  }

  /** The login handler of the patient and admin routers. */
  function UserLogin(users: seq<User>, email: string, password: string, hash: string -> string): (r: Reply<Session>)
    ensures r.Ok? || r == Fail(404, "User not found") || r == Fail(400, "Invalid credentials")
    ensures r == Fail(404, "User not found") <==> forall j :: 0 <= j < |users| ==> users[j].email != NormalizeEmail(email)
    ensures r == Fail(400, "Invalid credentials") ==>
              exists k | 0 <= k < |users| :: users[k].email == NormalizeEmail(email) && hash(password) != users[k].password
    ensures r.Ok? ==> exists k | 0 <= k < |users| ::
              users[k].email == NormalizeEmail(email) && hash(password) == users[k].password
              && r.value == Session(Principal(users[k].id, users[k].role), users[k].name, users[k].role)
  {
    Login(UserAccounts(users), email, password, hash)
  }

  /** The login handler of the doctor router: the same steps over the doctors
      collection; the session carries the doctor's stored role ("doctor" unless
      an update changed it). */
  function DoctorLogin(doctors: seq<Doctor>, email: string, password: string, hash: string -> string): (r: Reply<Session>)
    ensures r.Ok? || r == Fail(404, "User not found") || r == Fail(400, "Invalid credentials")
    ensures r == Fail(404, "User not found") <==> forall j :: 0 <= j < |doctors| ==> doctors[j].email != NormalizeEmail(email)
    ensures r == Fail(400, "Invalid credentials") ==>
              exists k | 0 <= k < |doctors| :: doctors[k].email == NormalizeEmail(email) && hash(password) != doctors[k].password
    ensures r.Ok? ==> exists k | 0 <= k < |doctors| ::
              doctors[k].email == NormalizeEmail(email) && hash(password) == doctors[k].password
              && r.value == Session(Principal(doctors[k].id, doctors[k].role), doctors[k].name, doctors[k].role)
  {
    Login(DoctorAccounts(doctors), email, password, hash)
  }

  /** Doctor emails need not be distinct, so a doctor's login is decided by
      the stored password of the first doctor that has the email: success
      exactly when the password hashes to it, 400 otherwise. */
  lemma DoctorLoginIsOwnPassword(doctors: seq<Doctor>, k: nat, email: string, password: string, hash: string -> string)
    requires k < |doctors| && doctors[k].email == NormalizeEmail(email)
    requires forall j :: 0 <= j < k ==> doctors[j].email != NormalizeEmail(email)
    ensures DoctorLogin(doctors, email, password, hash)
         == if hash(password) == doctors[k].password then Ok(SessionOf(DoctorAccount(doctors[k])))
            else Fail(400, "Invalid credentials")
  {
    var e := NormalizeEmail(email);
    FirstIs(DoctorAccounts(doctors), (a: Account) => a.email == e, k);
  }
}
