/**
 * Login (`loginUser`): four format guards answered with 400, then one
 * credential test whose two failures, an unknown email and a wrong password,
 * give the same 401 answer; on success a token whose subject is the record's
 * id and which expires one hour after it is issued.
 */
module LoginSpec {
  import opened Wrappers
  import opened Users
  import opened Checks
  import RegisterSpec

  datatype LoginError =
    | InvalidRequest
    | EmailRequired
    | EmailInvalid
    | PasswordRequired
    | PasswordInvalid
    | InvalidCredentials
  {
    function Message(): string {
      match this
      case InvalidRequest => "Invalid request parameters. Please provide User details"
      case EmailRequired => "Email is required"
      case EmailInvalid => "Email is invalid"
      case PasswordRequired => "password is required"
      case PasswordInvalid => "It is not valid password"
      case InvalidCredentials => "Email or password does not match, Invalid login Credentials"
    }
  }

  /** The token's claims; its signature and secret are not modelled. */
  datatype Token = Token(subject: Id, issuedAt: int, expiresAt: int)

  /** What a successful login returns: the user's id and the token. */
  datatype Session = Session(userId: Id, token: Token)

  /** `expiresIn: "1h"`, in seconds. */
  const TokenLifetime: int := 3600

  /** `jwt.sign({ userId, iat: now }, …, { expiresIn: "1h" })`. */
  function Issue(userId: Id, now: int): (t: Token)
    ensures t.subject == userId && t.issuedAt == now
    ensures t.expiresAt - t.issuedAt == TokenLifetime
  {
    Token(userId, now, now + TokenLifetime)
  }

  function LoginStatus(r: Result<Session, LoginError>): (status: int)
    ensures status == 200 <==> r.Success?
    ensures status == 401 <==> r == Failure(InvalidCredentials)
    ensures r.Failure? && r.error != InvalidCredentials ==> status == 400
  {
    match r
    case Success(_) => 200
    case Failure(InvalidCredentials) => 401
    case Failure(_) => 400
  }

  /** The format guards of `loginUser`, in the order it runs them. */
  function LoginChecks(v: Validators, b: Body): (cs: seq<Check<LoginError>>)
    ensures |cs| == 5
  {
    [ Check(v.isValidRequest(b), InvalidRequest),
      Check(v.isValidString(b.email), EmailRequired),
      Check(v.isValidMail(b.email), EmailInvalid),
      Check(v.isValidString(b.password), PasswordRequired),
      Check(v.isValidPassword(b.password), PasswordInvalid) ]
  }

  /** What login answers at time `now` (seconds). */
  ghost function LoginResult(v: Validators, users: map<Id, User>, b: Body, now: int): Result<Session, LoginError> {
    match Verdict(LoginChecks(v, b))
    case Some(e) => Failure(e)
    case None =>
      match FindByEmail(users, b.email)
      case None => Failure(InvalidCredentials)
      case Some(id) =>
        if Compare(v, b.password, users[id].password) then Success(Session(id, Issue(id, now)))
        else Failure(InvalidCredentials)
  }

  /**
   * Login succeeds exactly when the body is well formed and some record has
   * the submitted email and the hash of the submitted password; the session
   * then names that record and its token has that record's id as subject and
   * expires one hour after `now`.
   */
  lemma LoginSucceedsExactly(v: Validators, users: map<Id, User>, b: Body, now: int)
    requires UniqueContacts(users)
    ensures LoginResult(v, users, b, now).Success? <==>
      Verdict(LoginChecks(v, b)).None? &&
      exists id :: id in users && users[id].email == b.email && Compare(v, b.password, users[id].password)
    ensures LoginResult(v, users, b, now).Success? ==>
      var s := LoginResult(v, users, b, now).value;
      && s.userId in users && users[s.userId].email == b.email
      && Compare(v, b.password, users[s.userId].password)
      && s.token.subject == s.userId
      && s.token.issuedAt == now && s.token.expiresAt == now + TokenLifetime
  {
    if Verdict(LoginChecks(v, b)).None? {
      if id :| id in users && users[id].email == b.email && Compare(v, b.password, users[id].password) {
        FindByEmailIsTheHolder(users, id);
      }
    }
  }

  /**
   * The two credential failures cannot be told apart: an email no record
   * holds and a known email with a wrong password get the very same answer,
   * 401 with one message.
   */
  lemma LoginFailuresIndistinguishable(v: Validators, users: map<Id, User>, unknown: Body, wrong: Body, now: int)
    requires Verdict(LoginChecks(v, unknown)).None? && Verdict(LoginChecks(v, wrong)).None?
    requires !EmailInUse(users, unknown.email)
    requires forall id :: id in users && users[id].email == wrong.email ==>
      !Compare(v, wrong.password, users[id].password)
    ensures LoginResult(v, users, unknown, now) == LoginResult(v, users, wrong, now)
    ensures LoginResult(v, users, wrong, now) == Failure(InvalidCredentials)
    ensures LoginStatus(LoginResult(v, users, wrong, now)) == 401
  {
  }

  /**
   * A registration followed by a login with the same email and password
   * succeeds, and the token's subject is the id the new record was stored
   * under.
   */
  lemma RegisterThenLogin(v: Validators, users: map<Id, User>, b: Body, newId: Id, login: Body, now: int)
    requires UniqueContacts(users) && newId !in users
    requires RegisterSpec.RegisterResult(v, users, b).Success?
    requires v.isValidRequest(login) && login.email == b.email && login.password == b.password
    ensures LoginResult(v, users[newId := RegisterSpec.RegisterResult(v, users, b).value], login, now)
            == Success(Session(newId, Issue(newId, now)))
  {
    var u := RegisterSpec.RegisterResult(v, users, b).value;
    var after := users[newId := u];
    var rs := RegisterSpec.RegisterChecks(v, users, b);
    assert rs[5].passes && rs[6].passes && rs[8].passes && rs[9].passes;
    RegisterSpec.RegisterSuccess(v, users, b);
    RegisterSpec.RegisterKeepsContactsUnique(v, users, b, newId);
    assert Verdict(LoginChecks(v, login)).None?;
    FindByEmailIsTheHolder(after, newId);
  }
}
