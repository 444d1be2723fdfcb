/**
 * Registration (`createUser`): fifteen guards in a fixed order, the first
 * failing one answered with 400, and on success one new record whose two
 * password fields both hold the hash of the submitted password.
 */
module RegisterSpec {
  import opened Wrappers
  import opened Users
  import opened Checks

  /** One error kind per guard, in the order the guards run. */
  datatype RegisterError =
    | InvalidRequest
    | FullNameRequired
    | FullNameInvalid
    | FullNameHasDigits
    | FullNameTooLong
    | EmailRequired
    | EmailInvalid
    | EmailTaken
    | PasswordRequired
    | PasswordInvalid
    | ConfirmPasswordRequired
    | ConfirmPasswordMismatch
    | PhoneRequired
    | PhoneInvalid
    | PhoneTaken
  {
    /** The message the response carries. */
    function Message(): string {
      match this
      case InvalidRequest => "Invalid request parameters. Please provide User details"
      case FullNameRequired => "fullName is mandatory"
      case FullNameInvalid => "fullName is not a valid name"
      case FullNameHasDigits => "fullName must be valid it should not contains numbers"
      case FullNameTooLong => "fullName exceeds the maximum length limit"
      case EmailRequired => "email is required"
      case EmailInvalid => "email is invalid"
      case EmailTaken => "this Email belong to other user"
      case PasswordRequired => "password is required"
      case PasswordInvalid =>
        "password must be 8-15 characters long consisting of atleast one number, uppercase letter, lowercase letter and special character"
      case ConfirmPasswordRequired => "confirm password is required"
      case ConfirmPasswordMismatch => "confirm password must match the entered password"
      case PhoneRequired => "phone number is mandatory"
      case PhoneInvalid => "phone number is not a valid"
      case PhoneTaken => "this phone number belong to other user"
    }
  }

  /** The HTTP status of a registration answer. */
  function RegisterStatus(r: Result<User, RegisterError>): (status: int)
    ensures status == 201 <==> r.Success?
    ensures r.Failure? ==> status == 400
  {
    if r.Success? then 201 else 400
  }

  /** Position of the email-duplicate guard and of the phone-duplicate guard. */
  const EmailTakenAt: nat := 7
  const PhoneTakenAt: nat := 14

  /** Guard `i` of `createUser`, numbering them in the order it runs them. */
  ghost function RegisterCheck(v: Validators, users: map<Id, User>, b: Body, i: nat): Check<RegisterError>
    requires i < 15
  {
    match i
    case 0 => Check(v.isValidRequest(b), InvalidRequest)
    case 1 => Check(v.isValidString(b.fullName), FullNameRequired)
    case 2 => Check(v.isValidName(b.fullName), FullNameInvalid)
    case 3 => Check(!HasDigit(b.fullName), FullNameHasDigits)
    case 4 => Check(v.isValidLength(b.fullName), FullNameTooLong)
    case 5 => Check(v.isValidString(b.email), EmailRequired)
    case 6 => Check(v.isValidMail(b.email), EmailInvalid)
    case 7 => Check(!EmailInUse(users, b.email), EmailTaken)
    case 8 => Check(v.isValidString(b.password), PasswordRequired)
    case 9 => Check(v.isValidPassword(b.password), PasswordInvalid)
    case 10 => Check(v.isValidString(b.confirmPassword), ConfirmPasswordRequired)
    case 11 => Check(v.isConfirmPasswordMatch(b.password, b.confirmPassword), ConfirmPasswordMismatch)
    case 12 => Check(v.isValidString(b.phone), PhoneRequired)
    case 13 => Check(v.isValidPhone(b.phone), PhoneInvalid)
    case 14 => Check(!PhoneInUse(users, b.phone), PhoneTaken)
  }

  /** The guards of `createUser`, in the order it runs them. */
  ghost function RegisterChecks(v: Validators, users: map<Id, User>, b: Body): (cs: seq<Check<RegisterError>>)
    ensures |cs| == 15
    ensures forall i :: 0 <= i < 15 ==> cs[i] == RegisterCheck(v, users, b, i)
  {
    seq(15, i requires 0 <= i < 15 => RegisterCheck(v, users, b, i))
  }

  /** The record registration writes: both password fields hold the hash of `password`. */
  function NewUser(v: Validators, b: Body): (u: User)
    ensures u.fullName == b.fullName && u.email == b.email && u.phone == b.phone
    ensures Compare(v, b.password, u.password)
    ensures PasswordsPaired(v, u)
  {
    var digest := v.hashPassword(b.password);
    User(b.fullName, b.email, b.phone, digest, digest)
  }

  /** What registration answers: the first failing guard's error, or the new record. */
  ghost function RegisterResult(v: Validators, users: map<Id, User>, b: Body): Result<User, RegisterError> {
    match Verdict(RegisterChecks(v, users, b))
    case Some(e) => Failure(e)
    case None => Success(NewUser(v, b))
  }

  /**
   * A successful registration stores the submitted name, email and phone and
   * the hash of the password in BOTH password fields, and it implies that no
   * record held the email or the phone beforehand.
   */
  lemma RegisterSuccess(v: Validators, users: map<Id, User>, b: Body)
    requires RegisterResult(v, users, b).Success?
    ensures var u := RegisterResult(v, users, b).value;
      && u.fullName == b.fullName && u.email == b.email && u.phone == b.phone
      && u.password == v.hashPassword(b.password)
      && u.confirmPassword == u.password
    ensures !EmailInUse(users, b.email) && !PhoneInUse(users, b.phone)
    ensures v.isValidString(b.password) && v.isValidPassword(b.password)
    ensures v.isConfirmPasswordMatch(b.password, b.confirmPassword)
  {
    var cs := RegisterChecks(v, users, b);
    assert cs[EmailTakenAt].passes && cs[PhoneTakenAt].passes;
    assert cs[8].passes && cs[9].passes && cs[11].passes;
  }

  /**
   * An email some record already holds is always refused; once the request,
   * name and email-format guards pass, the refusal is `EmailTaken`.
   */
  lemma RegisterRejectsTakenEmail(v: Validators, users: map<Id, User>, b: Body)
    requires EmailInUse(users, b.email)
    ensures RegisterResult(v, users, b).Failure?
    ensures PassesBefore(RegisterChecks(v, users, b), EmailTakenAt) ==>
      RegisterResult(v, users, b) == Failure(EmailTaken)
  {
    var cs := RegisterChecks(v, users, b);
    FailingCheckRejects(cs, EmailTakenAt);
    if PassesBefore(cs, EmailTakenAt) {
      VerdictAt(cs, EmailTakenAt);
    }
  }

  /**
   * A phone some record already holds is always refused; the phone guard runs
   * last, so when all earlier guards pass the refusal is `PhoneTaken`.
   */
  lemma RegisterRejectsTakenPhone(v: Validators, users: map<Id, User>, b: Body)
    requires PhoneInUse(users, b.phone)
    ensures RegisterResult(v, users, b).Failure?
    ensures PassesBefore(RegisterChecks(v, users, b), PhoneTakenAt) ==>
      RegisterResult(v, users, b) == Failure(PhoneTaken)
  {
    var cs := RegisterChecks(v, users, b);
    FailingCheckRejects(cs, PhoneTakenAt);
    if PassesBefore(cs, PhoneTakenAt) {
      VerdictAt(cs, PhoneTakenAt);
    }
  }

  /**
   * A password the validator refuses (say one of seven characters) is
   * answered with `PasswordInvalid` once the guards before it pass.
   */
  lemma RegisterRejectsBadPassword(v: Validators, users: map<Id, User>, b: Body)
    requires !v.isValidPassword(b.password)
    ensures RegisterResult(v, users, b).Failure?
    ensures PassesBefore(RegisterChecks(v, users, b), 9) ==>
      RegisterResult(v, users, b) == Failure(PasswordInvalid)
  {
    var cs := RegisterChecks(v, users, b);
    FailingCheckRejects(cs, 9);
    if PassesBefore(cs, 9) {
      VerdictAt(cs, 9);
    }
  }

  /**
   * Registration keeps emails and phones unique: writing the new record
   * under a fresh id leaves no two records sharing either, and the store
   * grows by exactly one record.
   */
  lemma RegisterKeepsContactsUnique(v: Validators, users: map<Id, User>, b: Body, newId: Id)
    requires UniqueContacts(users) && newId !in users
    requires RegisterResult(v, users, b).Success?
    ensures UniqueContacts(users[newId := RegisterResult(v, users, b).value])
    ensures |users[newId := RegisterResult(v, users, b).value]| == |users| + 1
  {
    RegisterSuccess(v, users, b);
    var u := RegisterResult(v, users, b).value;
    var after := users[newId := u];
    forall a, c
      ensures DistinctAt(after, a, c)
    {
      assert DistinctAt(users, a, c);
    }
  }
}
