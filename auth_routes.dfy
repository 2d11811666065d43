/** `POST /api/auth` (login) and `GET /api/auth` (the current user). Both
    only read the users collection: they are functions of it. */
module AuthRoutes {
  import opened Js
  import opened Http
  import opened Models
  import opened Users

  /** The messages of the failed checks of the login request, in order; the
      password is None when the field is absent (`exists()`). */
  function LoginErrors(email: string, password: Option<string>, libs: Libraries): (errs: seq<string>)
    ensures errs == [] <==> libs.isEmail(email) && password.Some?
    ensures !libs.isEmail(email) ==> errs[0] == "Please include a valid email"
    ensures libs.isEmail(email) && password.None? ==> errs == ["Password is required to Login."]
  {
    (if !libs.isEmail(email) then ["Please include a valid email"] else []) +
    (if password.None? then ["Password is required to Login."] else [])
  }

  /** The reply to an unknown email and to a wrong password alike. */
  function BadCredentials(): Response<Token> {
    Invalid(["Invalid Credentials"])
  }

  /** `POST /api/auth`. A token is issued exactly when the request is valid,
      a user holds the email and bcrypt accepts the password against that
      user's hash; it carries that user's id. */
  function Login(users: seq<User>, email: string, password: Option<string>, libs: Libraries): (r: Response<Token>)
    ensures LoginErrors(email, password, libs) != [] ==> r == Invalid(LoginErrors(email, password, libs))
    ensures LoginErrors(email, password, libs) == [] && FindUserByEmail(users, email).None? ==>
              r == BadCredentials()
    ensures r.Ok? <==>
              && LoginErrors(email, password, libs) == []
              && (exists i :: 0 <= i < |users| && users[i].email == email)
              && libs.compare(password.value, FindUserByEmail(users, email).value.password)
    ensures r.Ok? ==>
              && r.value.expiresIn == 36000
              && exists i :: 0 <= i < |users| && users[i].email == email && r.value.payload.user.id == users[i].id
  {
    var errs := LoginErrors(email, password, libs);
    if errs != [] then Invalid(errs)
    else
      match FindUserByEmail(users, email)
      case None => BadCredentials()
      case Some(user) =>
        if !libs.compare(password.value, user.password) then BadCredentials()
        else Ok(Issue(user.id))
  }

  /** An unknown email and a known email with a wrong password get the same
      reply, so the reply does not tell which emails are registered. */
  lemma LoginHidesRegisteredEmails(users: seq<User>, unknown: string, known: string, password: string, libs: Libraries)
    requires libs.isEmail(unknown) && libs.isEmail(known)
    requires FindUserByEmail(users, unknown).None?
    requires FindUserByEmail(users, known).Some?
    requires !libs.compare(password, FindUserByEmail(users, known).value.password)
    ensures Login(users, unknown, Some(password), libs) == Login(users, known, Some(password), libs)
    ensures Login(users, known, Some(password), libs) == Error(400, ErrorsBody(["Invalid Credentials"]))
  {
  }

  /** With a bcrypt whose `compare` accepts a password against its own hash,
      a user who has just registered logs in with the same email and password
      and gets a token for the id they were given. */
  lemma LoginAfterRegister(users: seq<User>, req: Registration, libs: Libraries, id: UserId, salt: string)
    requires DistinctBy(users, EmailOf)
    requires RegistrationErrors(req, libs) == []
    requires FindUserByEmail(users, req.email).None?
    requires libs.compare(req.password, libs.hash(req.password, salt))
    ensures Login(users + [NewUser(req, libs, id, salt)], req.email, Some(req.password), libs) == Ok(Issue(id))
  {
    RegisteredIsFound(users, req, libs, id, salt);
  }

  /** `GET /api/auth`: `findById(req.user.id).select('-password')`, which is
      null when no user has the id. */
  function CurrentUser(users: seq<User>, id: UserId): (r: Response<Option<PublicUser>>)
    ensures r.Ok?
    ensures r.value.None? <==> forall i :: 0 <= i < |users| ==> users[i].id != id
    ensures r.value.Some? ==>
              exists i :: 0 <= i < |users| && users[i].id == id &&
                r.value.value == PublicUser(id, users[i].name, users[i].email, users[i].avatar)
  {
    match FindUserById(users, id)
    case None => Ok(None)
    case Some(u) => Ok(Some(WithoutPassword(u)))
  }

  /** The user who has just registered reads back their own record, without
      the password. */
  lemma CurrentUserAfterRegister(users: seq<User>, req: Registration, libs: Libraries, id: UserId, salt: string)
    requires KeyAbsent(users, IdOf, id)
    ensures CurrentUser(users + [NewUser(req, libs, id, salt)], id) ==
              Ok(Some(PublicUser(id, req.name, req.email, libs.avatarOf(req.email))))
  {
    var after := users + [NewUser(req, libs, id, salt)];
    assert after[|users|].id == id;
    var found := FindUserById(after, id);
    var k :| 0 <= k < |after| && after[k] == found.value;
    assert k == |users|;
  }
}
