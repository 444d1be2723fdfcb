/**
 * Updating a profile (`updateUser`): a sparse update.  After the id, body,
 * existence and ownership guards, only the keys present in the body are
 * validated and written; email and phone conflict only with OTHER records;
 * the password/confirmPassword match runs on the raw values whether or not
 * both keys are present; and any refusal writes nothing.
 */
module UpdateSpec {
  import opened Wrappers
  import opened Users
  import opened Checks

  datatype UpdateError =
    | InvalidId
    | InvalidRequest
    | UserNotFound
    | NotOwner
    | FullNameInvalid
    | EmailInvalid
    | EmailTaken
    | PhoneInvalid
    | PhoneTaken
    | PasswordInvalid
    | ConfirmPasswordInvalid
    | ConfirmPasswordMismatch

  /** A missing record answers 404, every other refusal 400. */
  function UpdateStatus(r: Result<User, UpdateError>): (status: int)
    ensures status == 200 <==> r.Success?
    ensures status == 404 <==> r == Failure(UserNotFound)
    ensures r.Failure? && r.error != UserNotFound ==> status == 400
  {
    match r
    case Success(_) => 200
    case Failure(UserNotFound) => 404
    case Failure(_) => 400
  }

  /** `updateUserData`: the fields to write, None where the body has no such key. */
  datatype Patch = Patch(fullName: Field, email: Field, phone: Field, password: Option<Digest>, confirmPassword: Option<Digest>)

  const EmptyPatch := Patch(None, None, None, None, None)

  /** Hash a password field only when its key is present. */
  function HashIfPresent(v: Validators, f: Field): Option<Digest> {
    if f.Some? then Some(v.hashPassword(f)) else None
  }

  /** The patch `updateUser` builds from a body whose present keys all passed. */
  function PatchOf(v: Validators, b: Body): (p: Patch)
    ensures p.fullName == b.fullName && p.email == b.email && p.phone == b.phone
    ensures p.password.Some? <==> b.password.Some?
    ensures p.confirmPassword.Some? <==> b.confirmPassword.Some?
    ensures b.password.Some? ==> Compare(v, b.password, p.password.value)
    ensures b.confirmPassword.Some? ==> Compare(v, b.confirmPassword, p.confirmPassword.value)
    ensures p == EmptyPatch <==>
      b.fullName.None? && b.email.None? && b.phone.None? && b.password.None? && b.confirmPassword.None?
  {
    Patch(b.fullName, b.email, b.phone, HashIfPresent(v, b.password), HashIfPresent(v, b.confirmPassword))
  }

  /** `findOneAndUpdate`: overwrite the patched fields, keep the others. */
  function Apply(u: User, p: Patch): (r: User)
    ensures p == EmptyPatch ==> r == u
    ensures p.fullName.None? ==> r.fullName == u.fullName
    ensures p.email.None? ==> r.email == u.email
    ensures p.phone.None? ==> r.phone == u.phone
    ensures p.password.None? ==> r.password == u.password
    ensures p.confirmPassword.None? ==> r.confirmPassword == u.confirmPassword
    ensures p.fullName.Some? ==> r.fullName == p.fullName
    ensures p.email.Some? ==> r.email == p.email
    ensures p.phone.Some? ==> r.phone == p.phone
    ensures p.password.Some? ==> r.password == p.password.value
    ensures p.confirmPassword.Some? ==> r.confirmPassword == p.confirmPassword.value
  {
    User(
      if p.fullName.Some? then p.fullName else u.fullName,
      if p.email.Some? then p.email else u.email,
      if p.phone.Some? then p.phone else u.phone,
      if p.password.Some? then p.password.value else u.password,
      if p.confirmPassword.Some? then p.confirmPassword.value else u.confirmPassword)
  }

  /** Positions of the two uniqueness guards and of the raw password match. */
  const EmailTakenAt: nat := 6
  const PhoneTakenAt: nat := 8
  const MatchAt: nat := 11

  /** Guard `i` of `updateUser`, numbering them in the order it runs them; a guard on an absent key passes. */
  ghost function UpdateCheck(v: Validators, users: map<Id, User>, requester: Id, target: Id, b: Body, i: nat): Check<UpdateError>
    requires i < 12
  {
    match i
    case 0 => Check(v.isValidId(target), InvalidId)
    case 1 => Check(v.isValidRequest(b), InvalidRequest)
    case 2 => Check(target in users, UserNotFound)
    case 3 => Check(requester == target, NotOwner)
    case 4 => Check(b.fullName.None? || v.isValidName(b.fullName), FullNameInvalid)
    case 5 => Check(b.email.None? || v.isValidMail(b.email), EmailInvalid)
    case 6 => Check(b.email.None? || !EmailHeldByOther(users, target, b.email), EmailTaken)
    case 7 => Check(b.phone.None? || v.isValidPhone(b.phone), PhoneInvalid)
    case 8 => Check(b.phone.None? || !PhoneHeldByOther(users, target, b.phone), PhoneTaken)
    case 9 => Check(b.password.None? || v.isValidPassword(b.password), PasswordInvalid)
    case 10 => Check(b.confirmPassword.None? || v.isValidPassword(b.confirmPassword), ConfirmPasswordInvalid)
    case 11 => Check(v.isConfirmPasswordMatch(b.password, b.confirmPassword), ConfirmPasswordMismatch)
  }

  /** The guards of `updateUser`, in the order it runs them. */
  ghost function UpdateChecks(v: Validators, users: map<Id, User>, requester: Id, target: Id, b: Body): (cs: seq<Check<UpdateError>>)
    ensures |cs| == 12
    ensures forall i :: 0 <= i < 12 ==> cs[i] == UpdateCheck(v, users, requester, target, b, i)
  {
    seq(12, i requires 0 <= i < 12 => UpdateCheck(v, users, requester, target, b, i))
  }

  /** What `updateUser` answers: the first failing guard's error, or the updated record. */
  ghost function UpdateResult(v: Validators, users: map<Id, User>, requester: Id, target: Id, b: Body): Result<User, UpdateError> {
    var cs := UpdateChecks(v, users, requester, target, b);
    match Verdict(cs)
    case Some(e) => Failure(e)
    case None => assert cs[2].passes; Success(Apply(users[target], PatchOf(v, b)))
  }

  /**
   * The update is sparse: on success every field whose key the body omits
   * keeps its stored value, and every field whose key is present takes the
   * submitted value (the hash of it for the two password fields).
   */
  lemma UpdateIsSparse(v: Validators, users: map<Id, User>, requester: Id, target: Id, b: Body)
    requires UpdateResult(v, users, requester, target, b).Success?
    ensures target in users && requester == target
    ensures var before := users[target]; var after := UpdateResult(v, users, requester, target, b).value;
      && after.fullName == (if b.fullName.Some? then b.fullName else before.fullName)
      && after.email == (if b.email.Some? then b.email else before.email)
      && after.phone == (if b.phone.Some? then b.phone else before.phone)
      && after.password == (if b.password.Some? then v.hashPassword(b.password) else before.password)
      && after.confirmPassword ==
           (if b.confirmPassword.Some? then v.hashPassword(b.confirmPassword) else before.confirmPassword)
  {
    var cs := UpdateChecks(v, users, requester, target, b);
    assert cs[2].passes && cs[3].passes;
  }

  /**
   * A refusal as taken happens only when the key is present and another
   * record holds the submitted value: the duplicate tests exclude the
   * record being updated.
   */
  lemma UpdateTakenOnlyWhenHeld(v: Validators, users: map<Id, User>, requester: Id, target: Id, b: Body)
    ensures UpdateResult(v, users, requester, target, b) == Failure(EmailTaken) ==>
      b.email.Some? && EmailHeldByOther(users, target, b.email)
    ensures UpdateResult(v, users, requester, target, b) == Failure(PhoneTaken) ==>
      b.phone.Some? && PhoneHeldByOther(users, target, b.phone)
  {
    var cs := UpdateChecks(v, users, requester, target, b);
    VerdictIsFirstFailure(cs);
    if Verdict(cs).Some? {
      var k :| 0 <= k < |cs| && !cs[k].passes && cs[k].error == Verdict(cs).value && PassesBefore(cs, k);
      assert cs[k] == UpdateCheck(v, users, requester, target, b, k);
    }
  }

  /**
   * Re-submitting one's own email or phone never conflicts, whatever the
   * other key carries: with unique contacts, an email that is absent or
   * equal to the stored one is never refused as taken, and likewise for the
   * phone.
   */
  lemma UpdateOwnContactsAccepted(v: Validators, users: map<Id, User>, requester: Id, target: Id, b: Body)
    requires UniqueContacts(users) && target in users
    ensures b.email.None? || b.email == users[target].email ==>
      UpdateResult(v, users, requester, target, b) != Failure(EmailTaken)
    ensures b.phone.None? || b.phone == users[target].phone ==>
      UpdateResult(v, users, requester, target, b) != Failure(PhoneTaken)
  {
    OwnContactsNotHeldByOther(users, target);
    UpdateTakenOnlyWhenHeld(v, users, requester, target, b);
  }

  /**
   * An email or phone another record holds is always refused, and once the
   * guards before it pass the refusal names it.
   */
  lemma UpdateRejectsTakenContact(v: Validators, users: map<Id, User>, requester: Id, target: Id, b: Body)
    requires (b.email.Some? && EmailHeldByOther(users, target, b.email))
          || (b.phone.Some? && PhoneHeldByOther(users, target, b.phone))
    ensures UpdateResult(v, users, requester, target, b).Failure?
    ensures b.email.Some? && EmailHeldByOther(users, target, b.email) &&
            PassesBefore(UpdateChecks(v, users, requester, target, b), EmailTakenAt) ==>
      UpdateResult(v, users, requester, target, b) == Failure(EmailTaken)
    ensures b.phone.Some? && PhoneHeldByOther(users, target, b.phone) &&
            PassesBefore(UpdateChecks(v, users, requester, target, b), PhoneTakenAt) ==>
      UpdateResult(v, users, requester, target, b) == Failure(PhoneTaken)
  {
    var cs := UpdateChecks(v, users, requester, target, b);
    if b.email.Some? && EmailHeldByOther(users, target, b.email) {
      FailingCheckRejects(cs, EmailTakenAt);
      if PassesBefore(cs, EmailTakenAt) { VerdictAt(cs, EmailTakenAt); }
    }
    if b.phone.Some? && PhoneHeldByOther(users, target, b.phone) {
      FailingCheckRejects(cs, PhoneTakenAt);
      if PassesBefore(cs, PhoneTakenAt) { VerdictAt(cs, PhoneTakenAt); }
    }
  }

  /**
   * Updates keep emails and phones unique: overwriting the target with the
   * updated record leaves no two records sharing either.
   */
  lemma UpdateKeepsContactsUnique(v: Validators, users: map<Id, User>, requester: Id, target: Id, b: Body)
    requires UniqueContacts(users)
    requires UpdateResult(v, users, requester, target, b).Success?
    ensures target in users
    ensures UniqueContacts(users[target := UpdateResult(v, users, requester, target, b).value])
  {
    var cs := UpdateChecks(v, users, requester, target, b);
    assert cs[2].passes && cs[EmailTakenAt].passes && cs[PhoneTakenAt].passes;
    UpdateIsSparse(v, users, requester, target, b);
    var u := UpdateResult(v, users, requester, target, b).value;
    var after := users[target := u];
    forall a, c
      ensures DistinctAt(after, a, c)
    {
      assert DistinctAt(users, a, c);
    }
  }

  /**
   * The password match runs on the raw values even when only one of the two
   * keys is present.  If the validator's match is plain equality, a body that
   * carries exactly one of `password` and `confirmPassword` is never applied.
   */
  lemma UpdateSinglePasswordKeyRejected(v: Validators, users: map<Id, User>, requester: Id, target: Id, b: Body)
    requires forall p, q :: v.isConfirmPasswordMatch(p, q) <==> p == q
    requires b.password.Some? != b.confirmPassword.Some?
    ensures UpdateResult(v, users, requester, target, b).Failure?
  {
    var cs := UpdateChecks(v, users, requester, target, b);
    FailingCheckRejects(cs, MatchAt);
  }

  /**
   * With the match as plain equality, an update keeps the two password
   * fields hashes of one and the same plaintext: either both keys come with
   * the same value, each hashed on its own, or neither comes and both fields
   * keep what they held.
   */
  lemma UpdateKeepsPasswordsPaired(v: Validators, users: map<Id, User>, requester: Id, target: Id, b: Body)
    requires forall p, q :: v.isConfirmPasswordMatch(p, q) <==> p == q
    requires target in users && PasswordsPaired(v, users[target])
    requires UpdateResult(v, users, requester, target, b).Success?
    ensures b.password == b.confirmPassword
    ensures PasswordsPaired(v, UpdateResult(v, users, requester, target, b).value)
  {
    var cs := UpdateChecks(v, users, requester, target, b);
    assert cs[MatchAt].passes;
    assert b.password == b.confirmPassword;
    UpdateIsSparse(v, users, requester, target, b);
    var after := UpdateResult(v, users, requester, target, b).value;
    if b.password.Some? {
      assert after.password == v.hashPassword(b.password) && after.confirmPassword == v.hashPassword(b.password);
    }
  }
}
