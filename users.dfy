/**
 * The data the user controller works on: request bodies, stored user
 * records, the store itself (a map from record id to record), and the
 * validator module the controller imports, whose definitions are not part
 * of this model and are therefore taken as parameters.
 */
module Users {
  import opened Wrappers

  /** A record id as it appears in the request path and in tokens. */
  type Id = string

  /** Output of the password hash. */
  type Digest = string

  /** A body value: None when the key is absent (JavaScript `undefined`). */
  type Field = Option<string>

  /** The keys of a request body that the controller reads. */
  datatype Body = Body(fullName: Field, email: Field, password: Field, confirmPassword: Field, phone: Field)

  /** A stored user; fields hold exactly what the controller handed to the store. */
  datatype User = User(fullName: Field, email: Field, phone: Field, password: Digest, confirmPassword: Digest)

  /**
   * The imported validator module, one opaque function per export, plus its
   * `hashPassword`.  Nothing is assumed about them.
   */
  datatype Validators = Validators(
    isValidRequest: Body -> bool,
    isValidString: Field -> bool,
    isValidName: Field -> bool,
    isValidLength: Field -> bool,
    isValidMail: Field -> bool,
    isValidPassword: Field -> bool,
    isConfirmPasswordMatch: (Field, Field) -> bool,
    isValidPhone: Field -> bool,
    isValidId: Id -> bool,
    hashPassword: Field -> Digest)

  /** bcrypt's compare, taken as "hashing the plain text gives the stored digest". */
  predicate Compare(v: Validators, plain: Field, digest: Digest) {
    v.hashPassword(plain) == digest
  }

  /** The controller's own `/\d/` test; `undefined` is tested as the text "undefined". */
  predicate HasDigit(f: Field): (r: bool)
    ensures f.None? ==> !r
    ensures r ==> |f.value| > 0
  {
    f.Some? && exists i :: 0 <= i < |f.value| && '0' <= f.value[i] <= '9'
  }

  /**
   * The record's two password fields are hashes of one and the same
   * plaintext.
   */
  ghost predicate PasswordsPaired(v: Validators, u: User) {
    exists p :: u.password == v.hashPassword(p) && u.confirmPassword == v.hashPassword(p)
  }

  ghost predicate EmailInUse(users: map<Id, User>, e: Field) {
    exists id :: id in users && users[id].email == e
  }

  ghost predicate PhoneInUse(users: map<Id, User>, p: Field) {
    exists id :: id in users && users[id].phone == p
  }

  /** A record other than `self` holds email `e`. */
  ghost predicate EmailHeldByOther(users: map<Id, User>, self: Id, e: Field) {
    exists id :: id in users && id != self && users[id].email == e
  }

  /** A record other than `self` holds phone `p`. */
  ghost predicate PhoneHeldByOther(users: map<Id, User>, self: Id, p: Field) {
    exists id :: id in users && id != self && users[id].phone == p
  }

  /** Records `a` and `b`, when both exist and differ, share neither email nor phone. */
  ghost predicate DistinctAt(users: map<Id, User>, a: Id, b: Id) {
    a in users && b in users && a != b ==>
      users[a].email != users[b].email && users[a].phone != users[b].phone
  }

  /** The schema's unique indexes: no two records share an email or a phone. */
  ghost predicate UniqueContacts(users: map<Id, User>) {
    forall a, b :: DistinctAt(users, a, b)
  }

  /** `findOne({ email })`: some record with that email, if there is one. */
  ghost function FindByEmail(users: map<Id, User>, e: Field): (r: Option<Id>)
    ensures r.Some? ==> r.value in users && users[r.value].email == e
    ensures r.None? <==> !EmailInUse(users, e)
  {
    if EmailInUse(users, e) then
      var id :| id in users && users[id].email == e; Some(id)
    else None
  }

  /** `findOne({ phone })`: some record with that phone, if there is one. */
  ghost function FindByPhone(users: map<Id, User>, p: Field): (r: Option<Id>)
    ensures r.Some? ==> r.value in users && users[r.value].phone == p
    ensures r.None? <==> !PhoneInUse(users, p)
  {
    if PhoneInUse(users, p) then
      var id :| id in users && users[id].phone == p; Some(id)
    else None
  }

  /** With unique emails, the record `findOne` returns is the one holding the email. */
  lemma FindByEmailIsTheHolder(users: map<Id, User>, id: Id)
    requires UniqueContacts(users) && id in users
    ensures FindByEmail(users, users[id].email) == Some(id)
  {
    var r := FindByEmail(users, users[id].email);
    assert DistinctAt(users, r.value, id);
  }

  /**
   * With unique emails, "findOne found a record and it is not `self`" is the
   * same as "a record other than `self` holds the email".
   */
  lemma FoundEmailOtherThanSelf(users: map<Id, User>, self: Id, e: Field)
    requires UniqueContacts(users)
    ensures (FindByEmail(users, e).Some? && FindByEmail(users, e).value != self)
            <==> EmailHeldByOther(users, self, e)
  {
    if EmailHeldByOther(users, self, e) {
      var id :| id in users && id != self && users[id].email == e;
      FindByEmailIsTheHolder(users, id);
    }
  }

  /** The phone counterpart of `FoundEmailOtherThanSelf`. */
  lemma FoundPhoneOtherThanSelf(users: map<Id, User>, self: Id, p: Field)
    requires UniqueContacts(users)
    ensures (FindByPhone(users, p).Some? && FindByPhone(users, p).value != self)
            <==> PhoneHeldByOther(users, self, p)
  {
    if PhoneHeldByOther(users, self, p) {
      var id :| id in users && id != self && users[id].phone == p;
      var r := FindByPhone(users, p);
      assert DistinctAt(users, r.value, id);
    }
  }

  /** A record's own email and phone are never held by another record when they are unique. */
  lemma OwnContactsNotHeldByOther(users: map<Id, User>, self: Id)
    requires UniqueContacts(users) && self in users
    ensures !EmailHeldByOther(users, self, users[self].email)
    ensures !PhoneHeldByOther(users, self, users[self].phone)
  {
    forall id | id in users && id != self
      ensures users[id].email != users[self].email && users[id].phone != users[self].phone
    {
      assert DistinctAt(users, id, self);
    }
  }
}
