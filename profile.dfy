/**
 * Reading a profile (`getUserProfile`): the id's format, then the record's
 * existence, then ownership; all three failures answer 400, and the record
 * is returned only to its owner.
 */
module ProfileSpec {
  import opened Wrappers
  import opened Users
  import opened Checks

  datatype ProfileError = InvalidId | UserNotFound | NotOwner

  function ProfileStatus(r: Result<User, ProfileError>): (status: int)
    ensures status == 200 <==> r.Success?
    ensures r.Failure? ==> status == 400
  {
    if r.Success? then 200 else 400
  }

  /** The guards of `getUserProfile`, in the order it runs them. */
  function ProfileChecks(v: Validators, users: map<Id, User>, requester: Id, target: Id): (cs: seq<Check<ProfileError>>)
    ensures |cs| == 3
  {
    [ Check(v.isValidId(target), InvalidId),
      Check(target in users, UserNotFound),
      Check(requester == target, NotOwner) ]
  }

  /** What `getUserProfile` answers to `requester` (the token's subject) asking for `target`. */
  function ProfileResult(v: Validators, users: map<Id, User>, requester: Id, target: Id): Result<User, ProfileError> {
    var cs := ProfileChecks(v, users, requester, target);
    match Verdict(cs)
    case Some(e) => Failure(e)
    case None => assert cs[1].passes; Success(users[target])
  }

  /**
   * The record is returned exactly when the id is well formed, the record
   * exists and the requester is its owner, and what is returned is the
   * stored record.
   */
  lemma ProfileOnlyForOwner(v: Validators, users: map<Id, User>, requester: Id, target: Id)
    ensures ProfileResult(v, users, requester, target).Success? <==>
      v.isValidId(target) && target in users && requester == target
    ensures ProfileResult(v, users, requester, target).Success? ==>
      ProfileResult(v, users, requester, target).value == users[requester]
  {
    var cs := ProfileChecks(v, users, requester, target);
    if v.isValidId(target) && target in users && requester == target {
      assert forall j :: 0 <= j < 3 ==> cs[j].passes;
    }
    if ProfileResult(v, users, requester, target).Success? {
      assert cs[0].passes && cs[1].passes && cs[2].passes;
    }
  }

  /**
   * Existence is checked before ownership: a well-formed id with no record
   * behind it answers `UserNotFound` whoever asks, and a request for someone
   * else's existing record answers `NotOwner`.
   */
  lemma ProfileExistenceBeforeOwnership(v: Validators, users: map<Id, User>, requester: Id, target: Id)
    requires v.isValidId(target)
    ensures target !in users ==> ProfileResult(v, users, requester, target) == Failure(UserNotFound)
    ensures target in users && requester != target ==>
      ProfileResult(v, users, requester, target) == Failure(NotOwner)
  {
    var cs := ProfileChecks(v, users, requester, target);
    if target !in users {
      VerdictAt(cs, 1);
    } else if requester != target {
      VerdictAt(cs, 2);
    }
  }
}
