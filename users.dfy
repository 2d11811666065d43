/** `POST /api/users`: registration. The request is validated, an email
    already in the store is refused, and otherwise a user holding the bcrypt
    hash of the password is appended and a token for the new id issued. */
module Users {
  import opened Js
  import opened Http
  import opened Models

  /** The body of the request; a missing field is "". */
  datatype Registration = Registration(name: string, email: string, password: string)

  /** The minimum password length `isLength({ min: 6 })` asks for. */
  const MinPasswordLength := 6

  /** The messages of the failed checks, in the order they are declared. */
  function RegistrationErrors(req: Registration, libs: Libraries): (errs: seq<string>)
    ensures errs == [] <==> req.name != "" && libs.isEmail(req.email) && |req.password| >= 6
    ensures |errs| <= 3
    ensures req.name == "" ==> errs[0] == "Name is Required"
    ensures req.name != "" && !libs.isEmail(req.email) ==> errs[0] == "Please include a valid emial"
    ensures req.name != "" && libs.isEmail(req.email) && |req.password| < 6 ==>
              errs == ["Please enter a password of length 6 or more"]
  {
    (if req.name == "" then ["Name is Required"] else []) +
    (if !libs.isEmail(req.email) then ["Please include a valid emial"] else []) +
    (if |req.password| < MinPasswordLength then ["Please enter a password of length 6 or more"] else [])
  }

  /** The user document a successful registration saves: the gravatar of the
      email and the hash of the password with the generated salt. */
  function NewUser(req: Registration, libs: Libraries, id: UserId, salt: string): User
  {
    User(id, req.name, req.email, libs.avatarOf(req.email), libs.hash(req.password, salt))
  }

  /** The handler. `newId` is the id the store gives the new document and
      `salt` what `bcrypt.genSalt(10)` returned. */
  method Register(db: Database, req: Registration, libs: Libraries, newId: UserId, salt: string)
    returns (r: Response<Token>)
    requires db.Valid()
    requires KeyAbsent(db.users, IdOf, newId)
    modifies db
    ensures db.Valid()
    ensures db.profiles == old(db.profiles) && db.posts == old(db.posts)
    ensures RegistrationErrors(req, libs) != [] ==>
              r == Invalid(RegistrationErrors(req, libs)) && db.users == old(db.users)
    ensures RegistrationErrors(req, libs) == [] && FindUserByEmail(old(db.users), req.email).Some? ==>
              r == Invalid(["User already exists"]) && db.users == old(db.users)
    ensures RegistrationErrors(req, libs) == [] && FindUserByEmail(old(db.users), req.email).None? ==>
              && db.users == old(db.users) + [NewUser(req, libs, newId, salt)]
              && r == Ok(Issue(newId))
  {
    var errs := RegistrationErrors(req, libs);
    if errs != [] {
      return Invalid(errs);
    }
    var existing := FindUserByEmail(db.users, req.email);
    if existing.Some? {
      return Invalid(["User already exists"]);
    }
    var avatar := libs.avatarOf(req.email);
    var user := User(newId, req.name, req.email, avatar, req.password);
    user := user.(password := libs.hash(req.password, salt));
    AppendKeepsDistinct(db.users, user, EmailOf);
    AppendKeepsDistinct(db.users, user, IdOf);
    db.users := db.users + [user];
    r := Ok(Issue(user.id));
  }

  /** After a successful registration the new user is the one found by its
      email, and every earlier user is still found by theirs. */
  lemma {:induction false} RegisteredIsFound(users: seq<User>, req: Registration, libs: Libraries, id: UserId, salt: string)
    requires DistinctBy(users, EmailOf)
    requires FindUserByEmail(users, req.email).None?
    ensures FindUserByEmail(users + [NewUser(req, libs, id, salt)], req.email) == Some(NewUser(req, libs, id, salt))
    ensures forall i :: 0 <= i < |users| ==>
              FindUserByEmail(users + [NewUser(req, libs, id, salt)], users[i].email) == Some(users[i])
  {
    var u := NewUser(req, libs, id, salt);
    var after := users + [u];
    AppendKeepsDistinct(users, u, EmailOf);
    FindUserByEmailUnique(after, |users|);
    forall i | 0 <= i < |users|
      ensures FindUserByEmail(after, users[i].email) == Some(users[i])
    {
      assert after[i] == users[i];
      FindUserByEmailUnique(after, i);
    }
  }
}
