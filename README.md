# User controller identity pipeline, modelled in Dafny

This project models the user controller of the skygoal server
(`serverside/src/controller/userController.js`). The controller has four
request handlers and one module-level list:

- `createUser` registers a user.
- `loginUser` checks credentials and issues a token.
- `getUserProfile` returns a user's own record.
- `updateUser` applies a sparse update to a user's own record.
- `userProfileRequestQueue` is a profile request list that
  `enqueueUserProfileRequest` pushes onto and `processUserProfileRequests`
  pops from.

Every handler runs a fixed chain of guards and answers with the error of the
first guard that fails. In the model, each chain is a sequence of
`Check(passes, error)` values in source order (`RegisterSpec.RegisterChecks`,
`LoginSpec.LoginChecks`, `ProfileSpec.ProfileChecks`,
`UpdateSpec.UpdateChecks`). `Checks.Verdict` picks the first failure. Each
handler is also a method of `UserController.Controller` that mirrors the
source's early-return `if` chain, and its `ensures` ties that chain to the
specification function. Lemmas about the specification functions state what
the handlers promise:

- which guard fires first;
- duplicates are refused;
- a refusal writes nothing;
- absent keys are left alone;
- the two login failures get the same answer;
- the unique email and phone indexes are kept;
- the request list is last-in, first-out.

The user collection is a `map<Id, User>` held in the controller's `users`
field. Its invariant `Valid()` is the schema's unique indexes on email and
phone (`serverside/src/model/userModel.js`). A body key is a
`Field = Option<string>`, where `None` stands for a key that is absent
(`undefined`).

The validator module (`../validator/validation`) is not part of this model.
Its functions, and `hashPassword`, are fields of a `Users.Validators` value
that the controller holds, and nothing is assumed about them.
`bcrypt.compare(p, h)` is read as `hashPassword(p) == h`. The id a new record
receives, the current time and the authenticated `req.userId` are parameters.

Files:

- `wrappers.dfy`: `Option` and `Result`.
- `checks.dfy`: guard chains and the first-failure verdict.
- `users.dfy`: bodies, records, validators, store lookups and uniqueness.
- `register.dfy`, `login.dfy`, `profile.dfy`, `update.dfy`: one
  specification module per handler.
- `requests.dfy`: the profile request list as push and pop on a sequence.
- `controller.dfy`: the `Controller` class with the handlers as methods.

### Behaviour kept as the code has it

- A request for someone else's profile or update is refused with 400, not
  403.
- Both handlers check that the record exists before they check ownership.
  A missing record answers 400 in `getUserProfile` (line 288) and 404 in
  `updateUser` (line 343).
- Duplicate emails and phones answer 400.
- `updateUser` evaluates the password/confirmPassword match on the raw
  values even when only one of the two keys is present (line 424). It does
  not skip the match in that case.
- Registration answers with the stored record, hashes included.
- The request list is named a queue but is used as a stack (`push`, `pop`).

## Model

| member | source | states |
|---|---|---|
| Checks.VerdictIsFirstFailure | serverside/src/controller/userController.js:53-177 | A guard chain answers nothing exactly when every guard passes. Otherwise it answers the error of a failing guard all of whose predecessors pass. |
| Checks.FirstFailing | serverside/src/controller/userController.js:53-177 | The position found has every earlier guard passing and, if inside the chain, fails itself. |
| Users.FindByEmail | serverside/src/controller/userController.js:109-110 | `findOne({ email })` returns a record holding the email, and returns none exactly when no record holds it. |
| Users.FindByPhone | serverside/src/controller/userController.js:170-171 | `findOne({ phone })` returns a record holding the phone, and returns none exactly when no record holds it. |
| Users.FoundEmailOtherThanSelf | serverside/src/controller/userController.js:375-376 | With unique emails, "findOne found a record whose id is not the target" holds exactly when another record holds the email. |
| Users.FoundPhoneOtherThanSelf | serverside/src/controller/userController.js:393-394 | The same equivalence for phones. |
| Users.FindByEmailIsTheHolder | serverside/src/controller/userController.js:244 | With unique emails, the lookup by a record's email returns that record. |
| Users.OwnContactsNotHeldByOther | serverside/src/model/userModel.js:9-33 | Under the unique indexes, no other record holds a record's own email or phone. |
| Users.Compare | serverside/src/controller/userController.js:246 | Definition, by its body: `bcrypt.compare(plain, digest)` holds when hashing the plaintext gives the digest. |
| Users.HasDigit | serverside/src/controller/userController.js:78-79 | The `/\d/` test: true only for a present, non-empty value. An absent value (tested as the text "undefined") has no digit. |
| RegisterSpec.RegisterStatus | serverside/src/controller/userController.js:53-193 | Registration answers 201 exactly on success and 400 on every guard failure. |
| RegisterSpec.NewUser | serverside/src/controller/userController.js:180-186 | `finalData` keeps the given name, email and phone. Its stored digest passes `compare` with the submitted password, and both password fields hash that one password. |
| RegisterSpec.RegisterChecks | serverside/src/controller/userController.js:53-177 | Definition, by its body: the fifteen registration guards in source order, each with the error it answers. |
| RegisterSpec.RegisterError.Message | serverside/src/controller/userController.js:53-177 | Definition, by its body: the response message of each registration refusal, as the source writes it. |
| RegisterSpec.RegisterResult | serverside/src/controller/userController.js:53-193 | Definition, by its body: the error of the first failing registration guard, or the new record. Its properties are the `Register…` lemmas. |
| RegisterSpec.RegisterSuccess | serverside/src/controller/userController.js:150-193 | A successful registration stores the given name, email and phone, and the hash of the password in both password fields. It implies that neither the email nor the phone was in use and that the password guards passed. |
| RegisterSpec.RegisterRejectsTakenEmail | serverside/src/controller/userController.js:109-115 | An email already in use is always refused. When the seven guards before it pass, the refusal is `EmailTaken`. |
| RegisterSpec.RegisterRejectsTakenPhone | serverside/src/controller/userController.js:170-177 | A phone already in use is always refused. When all fourteen earlier guards pass, the refusal is `PhoneTaken`. |
| RegisterSpec.RegisterRejectsBadPassword | serverside/src/controller/userController.js:124-131 | A password the validator refuses is always refused. When the guards before it pass, the refusal is `PasswordInvalid`. |
| RegisterSpec.RegisterKeepsContactsUnique | serverside/src/controller/userController.js:109-189 | Writing the new record under a fresh id keeps emails and phones unique, and grows the store by exactly one record. |
| LoginSpec.LoginStatus | serverside/src/controller/userController.js:207-269 | Login answers 200 exactly on success and 401 exactly for bad credentials. Every format failure answers 400. |
| LoginSpec.Issue | serverside/src/controller/userController.js:255-262 | The token names the user id as subject, is issued at `now` and expires `TokenLifetime` (3600 s, `"1h"`) later. |
| LoginSpec.LoginChecks | serverside/src/controller/userController.js:207-241 | Definition, by its body: the five login format guards in source order, each with the error it answers. |
| LoginSpec.LoginError.Message | serverside/src/controller/userController.js:207-252 | Definition, by its body: the response message of each login refusal, as the source writes it. |
| LoginSpec.LoginResult | serverside/src/controller/userController.js:207-268 | Definition, by its body: the first failing format guard, otherwise 401 for an unknown email or a failed compare, otherwise the session. Its properties are the `Login…` lemmas. |
| LoginSpec.LoginSucceedsExactly | serverside/src/controller/userController.js:244-268 | Login succeeds exactly when the format guards pass and some record has the email and the hash of the password. The session names that record, and the token's subject is its id, issued now and expiring 3600 s later. |
| LoginSpec.LoginFailuresIndistinguishable | serverside/src/controller/userController.js:244-252 | An unknown email and a wrong password get the identical answer, `InvalidCredentials` with 401. |
| LoginSpec.RegisterThenLogin | serverside/src/controller/userController.js:150-268 | After a successful registration, a login with the same email and password succeeds with a token whose subject is the new record's id. |
| ProfileSpec.ProfileStatus | serverside/src/controller/userController.js:280-307 | Reading a profile answers 200 exactly on success and 400 on each of the three refusals. |
| ProfileSpec.ProfileChecks | serverside/src/controller/userController.js:280-298 | Definition, by its body: the id-format, existence and ownership guards in source order. |
| ProfileSpec.ProfileResult | serverside/src/controller/userController.js:280-307 | Definition, by its body: the first failing guard among id format, existence and ownership, otherwise the stored record. Its properties are the `Profile…` lemmas. |
| ProfileSpec.ProfileOnlyForOwner | serverside/src/controller/userController.js:280-307 | A record is returned exactly when the id is well formed, the record exists and the requester is the target. What is returned is the stored record. |
| ProfileSpec.ProfileExistenceBeforeOwnership | serverside/src/controller/userController.js:286-298 | For a well-formed id, a missing record answers `UserNotFound` whoever asks. An existing record asked for by someone else answers `NotOwner`. |
| UpdateSpec.UpdateStatus | serverside/src/controller/userController.js:324-438 | An update answers 404 exactly for a missing record, 200 exactly on success, and 400 otherwise. |
| UpdateSpec.PatchOf | serverside/src/controller/userController.js:356-422 | `updateUserData` has an entry exactly for each key the body carries. The name, email and phone entries are the submitted values, and each password entry passes `compare` with its submitted value. It is empty exactly when the body carries none of the five keys. |
| UpdateSpec.Apply | serverside/src/controller/userController.js:432-436 | `findOneAndUpdate` with the patch: each field with a patch entry takes that entry (the raw value, or the digest for the two password fields), and each field without one keeps its stored value. An empty patch changes nothing. |
| UpdateSpec.UpdateChecks | serverside/src/controller/userController.js:324-430 | Definition, by its body: the twelve update guards in source order. A guard on a key the body does not carry passes. |
| UpdateSpec.UpdateResult | serverside/src/controller/userController.js:324-436 | Definition, by its body: the first failing update guard, otherwise the target record with the patch applied. Its properties are the `Update…` lemmas. |
| UpdateSpec.UpdateIsSparse | serverside/src/controller/userController.js:355-436 | On success, the requester owns the record. Each field whose key is absent keeps its stored value. Each present key takes the submitted value, or its hash for the two password fields. |
| UpdateSpec.UpdateTakenOnlyWhenHeld | serverside/src/controller/userController.js:374-397 | An update is refused as `EmailTaken` only when the body carries an email that another record holds, and as `PhoneTaken` only when it carries a phone another record holds. |
| UpdateSpec.UpdateOwnContactsAccepted | serverside/src/controller/userController.js:368-399 | Each field separately: an email that is absent or the record's own is never refused as taken, whatever the phone, and likewise for the phone. |
| UpdateSpec.UpdateRejectsTakenContact | serverside/src/controller/userController.js:374-397 | An email or phone held by another record is always refused. When the guards before it pass, the refusal names it. |
| UpdateSpec.UpdateKeepsContactsUnique | serverside/src/controller/userController.js:368-436 | Writing the updated record keeps emails and phones unique. |
| UpdateSpec.UpdateSinglePasswordKeyRejected | serverside/src/controller/userController.js:424-430 | When the match is plain equality, a body carrying exactly one of `password` and `confirmPassword` is always refused. |
| UpdateSpec.UpdateKeepsPasswordsPaired | serverside/src/controller/userController.js:401-436 | When the match is plain equality, a record whose two password fields hash one plaintext still has them hash one plaintext after any successful update. It also states that the body's two password values are equal: both keys come with the same value, or neither comes. |
| RequestList.Push | serverside/src/controller/userController.js:21-23 | `push` appends the id at the end and keeps the rest. |
| RequestList.Pop | serverside/src/controller/userController.js:25-30 | `pop` leaves an empty list as it is and returns nothing. Otherwise it returns the last id and removes it. |
| RequestList.PopUndoesPush | serverside/src/controller/userController.js:300-301 | A pop right after a push returns the pushed id and leaves the list as it was. |
| RequestList.LastInFirstOut | serverside/src/controller/userController.js:19-30 | Pushing several ids and popping as many times returns them in reverse order and leaves the earlier list untouched. |
| RequestList.ReverseOfSnoc | serverside/src/controller/userController.js:19-30 | Reversing a list extended at the end puts the new element first. |
| UserController.Controller.constructor | serverside/src/controller/userController.js:19 | The request list starts empty, and the store starts with unique contacts. |
| UserController.Controller.EnqueueUserProfileRequest | serverside/src/controller/userController.js:21-23 | The new list is the old one with the id pushed. |
| UserController.Controller.ProcessUserProfileRequests | serverside/src/controller/userController.js:25-30 | The popped id and the new list are `Pop` of the old list. |
| UserController.Controller.FindOneByEmail | serverside/src/controller/userController.js:109 | The lookup answers the record holding the email, or none. |
| UserController.Controller.FindOneByPhone | serverside/src/controller/userController.js:170 | The lookup answers the record holding the phone, or none. |
| UserController.Controller.RegisterGuards | serverside/src/controller/userController.js:53-177 | The `if` chain answers exactly the first failing registration guard, or none. |
| UserController.Controller.CreateUser | serverside/src/controller/userController.js:48-194 | The answer and status are those of `RegisterResult`. A refusal leaves the store unchanged. Success adds exactly the new record under the fresh id. The unique indexes still hold. |
| UserController.Controller.LoginUser | serverside/src/controller/userController.js:202-269 | The answer and status are those of `LoginResult`. The store is not written. |
| UserController.Controller.GetUserProfile | serverside/src/controller/userController.js:275-307 | The answer and status are those of `ProfileResult`. The store is not written, and the push and pop leave the request list as it was. |
| UserController.Controller.BuildUpdate | serverside/src/controller/userController.js:321-353 | The update's `if` chain fails exactly when a guard fails, with the first failing guard's error. Otherwise it yields `PatchOf(body)` for an existing target. |
| UserController.Controller.BuildPatch | serverside/src/controller/userController.js:355-399 | With the access guards passed, the field-by-field construction of `updateUserData` and its guards give the same verdict and patch. |
| UserController.Controller.FinishPatch | serverside/src/controller/userController.js:401-430 | With the name, email and phone entries in, the password entries and the raw match complete the same verdict and patch. |
| UserController.Controller.UpdateUser | serverside/src/controller/userController.js:319-442 | The answer and status are those of `UpdateResult`. A refusal leaves the store unchanged. Success overwrites only the target record. The unique indexes still hold. |

## Left out

- Express framing: `res.status().send()` is modelled as a status and an error kind. The messages of the register and login errors are kept (`Message()`). No profile or update message is modelled.
- The `catch` branches that answer 500 (400 in `getUserProfile`) are left out. Store and hash failures are not modelled.
- Mongoose: `findOne`, `findById`, `create` and `findOneAndUpdate` are operations on the map. The schema's `trim`, `lowercase`, `required` and `minlength` are not modelled.
- Ids are compared as exact strings. `findById`'s conversion of the path id to an ObjectId is not modelled (lines 286 and 341). That conversion also accepts upper-case hex, so in the source another spelling of an existing id finds the record and reaches the ownership refusal. In the model only the stored spelling finds it, and any other spelling answers `UserNotFound`.
- A late unique-index violation raised by the store is not modelled. The model keeps uniqueness through the handlers' own guards, as a single-threaded sequence of requests.
- Non-string JSON values in a body are not modelled. A key is either absent or a string.
- Body keys other than the five the handlers read are not modelled. `isValidRequest` sees only those five, so the model cannot tell `{}` from `{"foo":"x"}`, although the source can. In `updateUser` the first answers 400 and the second passes with an empty patch and no change.
- The validator module (`../validator/validation`) and the authentication middleware (`../middleware/auth`) are not part of this model. The validators are opaque functions. `req.userId` is the `requester` parameter.
- `LoginUser`: the token's signature, secret and verification are not modelled. The token is its subject, its issue time and its expiry. `iat` is taken as the whole seconds passed in as `now`, not as the fractional value the source computes.
- UpdateSpec.UpdateKeepsPasswordsPaired: bcrypt's per-call salting is not modelled. `hashPassword` is a function, so two hashes of the same plaintext are equal strings in the model. In the source, the two separate calls at lines 409 and 420 give different strings that both verify against that plaintext. The lemma's claim is "both fields hash the same password", not "both fields hold the same string".
- CreateUser: the answer carries the stored record but not its `_id`, which the source's response includes. The id is `newId`, the key the store holds the record under.
- Response timing is not modelled. For an unknown email, line 246 skips `bcrypt.compare`, so that login failure can answer sooner than a wrong password does. The two failures are the same only in their answer.
- `ProcessUserProfileRequests`: the `findById` lookup and the console logging after the pop are not modelled, because they only produce log output. The async scheduling is not modelled either.
- The extra `processUserProfileRequests` mounted before `updateUser` in `serverside/src/routes/route.js` is not modelled. It never calls `next`. That is routing, outside the controller.
- The client pages (`clientside/`) are not modelled.
