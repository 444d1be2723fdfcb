/**
 * The user controller: its four request handlers and its module-level
 * profile request list, over a store of user records.  Each handler takes
 * the parsed request (the body, the `:userId` path parameter, the
 * authenticated `req.userId`) and answers with a status code and either a
 * payload or the error kind of the first guard that failed.
 */
module UserController {
  import opened Wrappers
  import opened Users
  import opened Checks
  import R = RegisterSpec
  import L = LoginSpec
  import P = ProfileSpec
  import U = UpdateSpec
  import Q = RequestList

  class Controller {
    /** The validator module the controller imports. */
    const v: Validators
    /** The user collection: record id to record. */
    var users: map<Id, User>
    /** `userProfileRequestQueue`. */
    var requests: seq<Id>

    /** The store's unique indexes hold. */
    ghost predicate Valid()
      reads this
    {
      UniqueContacts(users)
    }

    constructor (v: Validators, users: map<Id, User>)
      requires UniqueContacts(users)
      ensures Valid()
      ensures this.v == v && this.users == users && requests == []
    {
      this.v := v;
      this.users := users;
      requests := [];
    }

    /** `enqueueUserProfileRequest`: push the id at the end of the list. */
    method EnqueueUserProfileRequest(userId: Id)
      modifies this`requests
      ensures requests == Q.Push(old(requests), userId)
    {
      requests := requests + [userId];
    }

    /**
     * `processUserProfileRequests`: nothing on an empty list, otherwise pop
     * the LAST id.  The lookup and logging that follow are not modelled.
     */
    method ProcessUserProfileRequests() returns (popped: Option<Id>)
      modifies this`requests
      ensures (popped, requests) == Q.Pop(old(requests))
    {
      if |requests| == 0 {
        return None;
      }
      popped := Some(requests[|requests| - 1]);
      requests := requests[..|requests| - 1];
    }

    /** `userModel.findOne({ email })`. */
    method FindOneByEmail(e: Field) returns (r: Option<Id>)
      requires Valid()
      ensures r == FindByEmail(users, e)
    {
      if exists id :: id in users && users[id].email == e {
        var id :| id in users && users[id].email == e;
        FindByEmailIsTheHolder(users, id);
        r := Some(id);
      } else {
        r := None;
      }
    }

    /** `userModel.findOne({ phone })`. */
    method FindOneByPhone(p: Field) returns (r: Option<Id>)
      requires Valid()
      ensures r == FindByPhone(users, p)
    {
      if exists id :: id in users && users[id].phone == p {
        var id :| id in users && users[id].phone == p;
        var found := FindByPhone(users, p);
        assert DistinctAt(users, found.value, id);
        r := Some(id);
      } else {
        r := None;
      }
    }

    /**
     * The guard chain of `createUser`: each guard in turn, stopping at the
     * first that fails.  Hashing the password, which the source does between
     * the password guards and the phone guards, has no effect on the guards
     * and is done by `CreateUser` once they all pass.
     */
    method RegisterGuards(b: Body) returns (e: Option<R.RegisterError>)
      requires Valid()
      ensures e == Verdict(R.RegisterChecks(v, users, b))
    {
      ghost var cs := R.RegisterChecks(v, users, b);
      if !v.isValidRequest(b) {
        VerdictAt(cs, 0); return Some(R.InvalidRequest);
      }
      PassesNext(cs, 0);
      if !v.isValidString(b.fullName) {
        VerdictAt(cs, 1); return Some(R.FullNameRequired);
      }
      PassesNext(cs, 1);
      if !v.isValidName(b.fullName) {
        VerdictAt(cs, 2); return Some(R.FullNameInvalid);
      }
      PassesNext(cs, 2);
      if HasDigit(b.fullName) {
        VerdictAt(cs, 3); return Some(R.FullNameHasDigits);
      }
      PassesNext(cs, 3);
      if !v.isValidLength(b.fullName) {
        VerdictAt(cs, 4); return Some(R.FullNameTooLong);
      }
      PassesNext(cs, 4);
      if !v.isValidString(b.email) {
        VerdictAt(cs, 5); return Some(R.EmailRequired);
      }
      PassesNext(cs, 5);
      if !v.isValidMail(b.email) {
        VerdictAt(cs, 6); return Some(R.EmailInvalid);
      }
      PassesNext(cs, 6);
      var isExistEmail := FindOneByEmail(b.email);
      if isExistEmail.Some? {
        VerdictAt(cs, 7); return Some(R.EmailTaken);
      }
      PassesNext(cs, 7);
      if !v.isValidString(b.password) {
        VerdictAt(cs, 8); return Some(R.PasswordRequired);
      }
      PassesNext(cs, 8);
      if !v.isValidPassword(b.password) {
        VerdictAt(cs, 9); return Some(R.PasswordInvalid);
      }
      PassesNext(cs, 9);
      if !v.isValidString(b.confirmPassword) {
        VerdictAt(cs, 10); return Some(R.ConfirmPasswordRequired);
      }
      PassesNext(cs, 10);
      if !v.isConfirmPasswordMatch(b.password, b.confirmPassword) {
        VerdictAt(cs, 11); return Some(R.ConfirmPasswordMismatch);
      }
      PassesNext(cs, 11);
      if !v.isValidString(b.phone) {
        VerdictAt(cs, 12); return Some(R.PhoneRequired);
      }
      PassesNext(cs, 12);
      if !v.isValidPhone(b.phone) {
        VerdictAt(cs, 13); return Some(R.PhoneInvalid);
      }
      PassesNext(cs, 13);
      var isExistPhone := FindOneByPhone(b.phone);
      if isExistPhone.Some? {
        VerdictAt(cs, 14); return Some(R.PhoneTaken);
      }
      PassesNext(cs, 14);
      VerdictNone(cs);
      return None;
    }

    /**
     * `createUser`: a failing guard answers 400 and writes nothing;
     * otherwise exactly one record is written, under the fresh id the store
     * hands out, and the unique indexes still hold.
     */
    method CreateUser(b: Body, newId: Id) returns (status: int, result: Result<User, R.RegisterError>)
      requires Valid() && newId !in users
      modifies this`users
      ensures Valid()
      ensures result == R.RegisterResult(v, old(users), b)
      ensures status == R.RegisterStatus(result)
      ensures users == if result.Success? then old(users)[newId := result.value] else old(users)
    {
      var failed := RegisterGuards(b);
      if failed.Some? {
        return 400, Failure(failed.value);
      }
      var hashPass := v.hashPassword(b.password);
      var finalData := User(b.fullName, b.email, b.phone, hashPass, hashPass);
      R.RegisterKeepsContactsUnique(v, users, b, newId);
      users := users[newId := finalData];
      return 201, Success(finalData);
    }

    /**
     * `loginUser` at time `now`: format guards answer 400; an unknown email
     * and a wrong password both answer 401 alike; success issues a token
     * bound to the record's id.
     */
    method LoginUser(b: Body, now: int) returns (status: int, result: Result<L.Session, L.LoginError>)
      requires Valid()
      ensures result == L.LoginResult(v, users, b, now)
      ensures status == L.LoginStatus(result)
    {
      ghost var cs := L.LoginChecks(v, b);
      if !v.isValidRequest(b) {
        VerdictAt(cs, 0); return 400, Failure(L.InvalidRequest);
      }
      PassesNext(cs, 0);
      if !v.isValidString(b.email) {
        VerdictAt(cs, 1); return 400, Failure(L.EmailRequired);
      }
      PassesNext(cs, 1);
      if !v.isValidMail(b.email) {
        VerdictAt(cs, 2); return 400, Failure(L.EmailInvalid);
      }
      PassesNext(cs, 2);
      if !v.isValidString(b.password) {
        VerdictAt(cs, 3); return 400, Failure(L.PasswordRequired);
      }
      PassesNext(cs, 3);
      if !v.isValidPassword(b.password) {
        VerdictAt(cs, 4); return 400, Failure(L.PasswordInvalid);
      }
      PassesNext(cs, 4);
      VerdictNone(cs);
      var user := FindOneByEmail(b.email);
      if user.None? || !Compare(v, b.password, users[user.value].password) {
        return 401, Failure(L.InvalidCredentials);
      }
      var token := L.Issue(user.value, now);
      return 200, Success(L.Session(user.value, token));
    }

    /**
     * `getUserProfile` for `requester` (the token's subject) and the path id
     * `target`: id format, then existence, then ownership; the store is only
     * read, and the push and pop on the request list cancel out.
     */
    method GetUserProfile(requester: Id, target: Id) returns (status: int, result: Result<User, P.ProfileError>)
      modifies this`requests
      ensures result == P.ProfileResult(v, users, requester, target)
      ensures status == P.ProfileStatus(result)
      ensures requests == old(requests)
    {
      ghost var cs := P.ProfileChecks(v, users, requester, target);
      if !v.isValidId(target) {
        VerdictAt(cs, 0); return 400, Failure(P.InvalidId);
      }
      PassesNext(cs, 0);
      if target !in users {
        VerdictAt(cs, 1); return 400, Failure(P.UserNotFound);
      }
      PassesNext(cs, 1);
      var userDoc := users[target];
      if requester != target {
        VerdictAt(cs, 2); return 400, Failure(P.NotOwner);
      }
      PassesNext(cs, 2);
      VerdictNone(cs);
      EnqueueUserProfileRequest(target);
      var _ := ProcessUserProfileRequests();
      return 200, Success(userDoc);
    }

    /**
     * The part of `updateUser` before the write: the id, body, existence and
     * ownership guards, then `BuildPatch`.  Answers the first failing guard's
     * error or the patch.
     */
    method BuildUpdate(requester: Id, target: Id, b: Body) returns (r: Result<U.Patch, U.UpdateError>)
      requires Valid()
      ensures r.Failure? <==> Verdict(U.UpdateChecks(v, users, requester, target, b)).Some?
      ensures r.Failure? ==> r.error == Verdict(U.UpdateChecks(v, users, requester, target, b)).value
      ensures r.Success? ==> r.value == U.PatchOf(v, b) && target in users
    {
      ghost var cs := U.UpdateChecks(v, users, requester, target, b);
      if !v.isValidId(target) {
        VerdictAt(cs, 0); return Failure(U.InvalidId);
      }
      PassesNext(cs, 0);
      if !v.isValidRequest(b) {
        VerdictAt(cs, 1); return Failure(U.InvalidRequest);
      }
      PassesNext(cs, 1);
      if target !in users {
        VerdictAt(cs, 2); return Failure(U.UserNotFound);
      }
      PassesNext(cs, 2);
      if requester != target {
        VerdictAt(cs, 3); return Failure(U.NotOwner);
      }
      PassesNext(cs, 3);
      r := BuildPatch(requester, target, b);
    }

    /**
     * Lines 355-399 of `updateUser`, reached once the access guards pass:
     * for each key the body carries, the key's guard and then the key's entry
     * in `updateUserData`; then the raw password match, on both values
     * whether or not their keys are present.
     */
    method BuildPatch(ghost requester: Id, target: Id, b: Body) returns (r: Result<U.Patch, U.UpdateError>)
      requires Valid()
      requires PassesBefore(U.UpdateChecks(v, users, requester, target, b), 4)
      ensures r.Failure? <==> Verdict(U.UpdateChecks(v, users, requester, target, b)).Some?
      ensures r.Failure? ==> r.error == Verdict(U.UpdateChecks(v, users, requester, target, b)).value
      ensures r.Success? ==> r.value == U.PatchOf(v, b) && target in users
    {
      ghost var cs := U.UpdateChecks(v, users, requester, target, b);
      assert PassesBefore(cs, 3) && PassesBefore(cs, 2) && cs[2].passes;
      var updateUserData := U.EmptyPatch;
      if b.fullName.Some? {
        if !v.isValidName(b.fullName) {
          VerdictAt(cs, 4); return Failure(U.FullNameInvalid);
        }
        updateUserData := updateUserData.(fullName := b.fullName);
      }
      assert updateUserData == U.Patch(b.fullName, None, None, None, None);
      PassesNext(cs, 4);
      if b.email.Some? {
        if !v.isValidMail(b.email) {
          VerdictAt(cs, 5); return Failure(U.EmailInvalid);
        }
        PassesNext(cs, 5);
        var emailDb := FindOneByEmail(b.email);
        FoundEmailOtherThanSelf(users, target, b.email);
        if emailDb.Some? && emailDb.value != target {
          VerdictAt(cs, 6); return Failure(U.EmailTaken);
        }
        updateUserData := updateUserData.(email := b.email);
      } else {
        PassesNext(cs, 5);
      }
      assert updateUserData == U.Patch(b.fullName, b.email, None, None, None);
      PassesNext(cs, 6);
      if b.phone.Some? {
        if !v.isValidPhone(b.phone) {
          VerdictAt(cs, 7); return Failure(U.PhoneInvalid);
        }
        PassesNext(cs, 7);
        var phoneDb := FindOneByPhone(b.phone);
        FoundPhoneOtherThanSelf(users, target, b.phone);
        if phoneDb.Some? && phoneDb.value != target {
          VerdictAt(cs, 8); return Failure(U.PhoneTaken);
        }
        updateUserData := updateUserData.(phone := b.phone);
      } else {
        PassesNext(cs, 7);
      }
      assert updateUserData == U.Patch(b.fullName, b.email, b.phone, None, None);
      PassesNext(cs, 8);
      r := FinishPatch(requester, target, b, updateUserData);
    }

    /**
     * Lines 401-430 of `updateUser`, continuing `updateUserData` once the
     * name, email and phone entries are in: the hashed password entries for
     * the password keys the body carries, then the raw password match.
     */
    method FinishPatch(ghost requester: Id, target: Id, b: Body, updateUserData: U.Patch) returns (r: Result<U.Patch, U.UpdateError>)
      requires Valid()
      requires PassesBefore(U.UpdateChecks(v, users, requester, target, b), 9)
      requires updateUserData == U.Patch(b.fullName, b.email, b.phone, None, None)
      ensures r.Failure? <==> Verdict(U.UpdateChecks(v, users, requester, target, b)).Some?
      ensures r.Failure? ==> r.error == Verdict(U.UpdateChecks(v, users, requester, target, b)).value
      ensures r.Success? ==> r.value == U.PatchOf(v, b) && target in users
    {
      ghost var cs := U.UpdateChecks(v, users, requester, target, b);
      assert target in users by {
        PassesBeforeAll(cs, 9);
        assert cs[2].passes;
      }
      var patch := updateUserData;
      if b.password.Some? {
        if !v.isValidPassword(b.password) {
          VerdictAt(cs, 9); return Failure(U.PasswordInvalid);
        }
        var hashPass := v.hashPassword(b.password);
        patch := patch.(password := Some(hashPass));
      }
      assert patch == U.Patch(b.fullName, b.email, b.phone, U.HashIfPresent(v, b.password), None);
      PassesNext(cs, 9);
      if b.confirmPassword.Some? {
        if !v.isValidPassword(b.confirmPassword) {
          VerdictAt(cs, 10); return Failure(U.ConfirmPasswordInvalid);
        }
        var hashPass := v.hashPassword(b.confirmPassword);
        patch := patch.(confirmPassword := Some(hashPass));
      }
      assert patch == U.PatchOf(v, b);
      PassesNext(cs, 10);
      if !v.isConfirmPasswordMatch(b.password, b.confirmPassword) {
        VerdictAt(cs, 11); return Failure(U.ConfirmPasswordMismatch);
      }
      PassesNext(cs, 11);
      VerdictNone(cs);
      return Success(patch);
    }

    /**
     * `updateUser`: a refusal writes nothing; otherwise the target record,
     * and only it, gets the patched fields, and the unique indexes still hold.
     */
    method UpdateUser(requester: Id, target: Id, b: Body) returns (status: int, result: Result<User, U.UpdateError>)
      requires Valid()
      modifies this`users
      ensures Valid()
      ensures result == U.UpdateResult(v, old(users), requester, target, b)
      ensures status == U.UpdateStatus(result)
      ensures users == if result.Success? then old(users)[target := result.value] else old(users)
    {
      var built := BuildUpdate(requester, target, b);
      if built.Failure? {
        result := Failure(built.error);
        return U.UpdateStatus(result), result;
      }
      var updatedUser := U.Apply(users[target], built.value);
      U.UpdateKeepsContactsUnique(v, users, requester, target, b);
      users := users[target := updatedUser];
      return 200, Success(updatedUser);
    }
  }
}
