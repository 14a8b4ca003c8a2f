# Results API: creating and replacing a Result

A Dafny model of the part of the results REST API (a Symfony/Doctrine application)
that changes data. `POST /api/v1/results` creates a graded attempt (a `Result`), and
`PUT /api/v1/results/{resultId}` replaces every field of one. Both actions run a fixed
sequence of checks. The first check that fails decides the status code: 401 for an
unauthenticated caller, 404 for a missing result, 403 for a policy refusal and 400 for
a bad body. A request that passes every check reaches the single `flush` that writes
to the database. The model also covers the entity classes that these actions and their
relations change: `Result`, `Subject` and `ExamSession`.

Modules:

- `Wrappers`: `Option`, the nullable value.
- `Collection`: Doctrine's `ArrayCollection` as the entities use it (`contains`, `add`,
  `removeElement`). It is an ordered sequence of object references compared by
  identity, with lemmas about duplicates, idempotence and removal.
- `Entity`: the classes `Result`, `Subject`, `ExamSession` and the `id` of `User`. Each
  setter is a method whose contract gives the whole new record as the old one with one
  field replaced. The `add*`/`remove*` methods keep or restore the two-sided links.
- `Store`: Doctrine's entity manager reduced to what the actions use. It holds maps
  from id to `Result`, `Subject` and `User`, a next-id allocator and the committed rows.
  The map of Results is the whole repository: every committed row belongs to a managed
  Result, so `find` on a stored id always succeeds. `persist` files a new Result under a
  fresh id. `flush` writes the current row of every managed Result, and no row is deleted.
  Each action is one request with its own entity manager, so it starts from the committed
  rows: every managed Result holds exactly its committed row (`Synced`), and both actions
  require this. A refused PUT can leave the live Result changed but not committed. That
  happens when the refusal comes after an administrator's `setSubject` or after the
  scalar setters. Those changes are discarded when the request ends and never reach the
  next request.
- `Controller`: `checkAuthUser`, `checkResultOwnerOrAdmin`, `postAction` and `putAction`
  as methods of a controller class over a store. `PostStatus` and `PutStatus` are pure
  decision functions that give the status each action answers with. The lemmas about
  them state the ordering and policy rules. Each action method is proved to answer
  exactly that status.

Inputs that the model takes as parameters:

- Security: `actor` is `None` when `isGranted('IS_AUTHENTICATED_FULLY')` fails.
  Otherwise it holds the user that `getUser()` returns and whether that user has
  `ROLE_ADMIN`.
- Request body: a map from key to scalar value (`Value`).
- PHP runtime: the casts `(float)`, `(bool)`, `(int)`, `(string)` and the constructor
  `new \DateTimeImmutable` are the total functions of a `PhpRuntime` value. A date
  parse that throws is `None`.

## Model

| member | source | states |
|---|---|---|
| `Collection.IndexOf` | src/Entity/Subject.php:112 | the search of `removeElement` finds the first identical element, and finds nothing exactly when the element is absent |
| `Collection.RemoveElement` | src/Entity/Subject.php:112 | `removeElement` reports true exactly when the element was contained; it then removes one element, and otherwise leaves the collection as it was |
| `Collection.AddIfAbsentMembers` | src/Entity/Subject.php:103-104 | a guarded add contains exactly the old elements plus the new one, and keeps the old ones first, in order |
| `Collection.AddIfAbsentIdempotent` | src/Entity/ExamSession.php:96-97 | a second guarded add of the same element changes nothing |
| `Collection.AddIfAbsentNoDuplicates` | src/Entity/Subject.php:103-104 | a guarded add never introduces a duplicate |
| `Collection.RemoveElementKeepsOthers` | src/Entity/Subject.php:138 | removing one element keeps every other element |
| `Collection.RemoveElementNoDuplicates` | src/Entity/Subject.php:138 | on a duplicate-free collection, the removed element is gone entirely and no duplicate appears |
| `Collection.RemoveElementMultiset` | src/Entity/Subject.php:112 | removal takes away exactly one copy of a contained element, and nothing otherwise |
| `Collection.RemoveUndoesAdd` | src/Entity/Subject.php:101-118 | removing an element that a guarded add has just appended restores the original collection and reports success |
| `Entity.User.constructor` | src/Controller/ApiResultsCommandController.php:58 | a user carries the id that the ownership check compares |
| `Entity.Result.constructor` | src/Entity/Result.php:13-36 | a new Result has a null id, a null user and a null subject |
| `Entity.Result.SetScoreValue` | src/Entity/Result.php:48-52 | only `scoreValue` changes, and it becomes the argument |
| `Entity.Result.SetPassed` | src/Entity/Result.php:59-63 | only `passed` changes, and it becomes the argument |
| `Entity.Result.SetGradedAt` | src/Entity/Result.php:70-74 | only `gradedAt` changes, and it becomes the argument |
| `Entity.Result.SetAttemptNumber` | src/Entity/Result.php:81-85 | only `attemptNumber` changes, and it becomes the argument |
| `Entity.Result.SetRemarks` | src/Entity/Result.php:92-96 | only `remarks` changes, and it becomes the argument |
| `Entity.Result.SetUser` | src/Entity/Result.php:103-107 | only `user` changes; null is accepted |
| `Entity.Result.SetSubject` | src/Entity/Result.php:114-118 | only `subject` changes; null is accepted |
| `Entity.Subject.constructor` | src/Entity/Subject.php:38-42 | a new Subject has empty `results` and `examSessions` |
| `Entity.Subject.SetSubjectCode` | src/Entity/Subject.php:54-58 | only `subjectCode` changes |
| `Entity.Subject.SetTitle` | src/Entity/Subject.php:65-69 | only `title` changes |
| `Entity.Subject.SetCredits` | src/Entity/Subject.php:76-80 | only `credits` changes |
| `Entity.Subject.SetActive` | src/Entity/Subject.php:87-91 | only `active` changes |
| `Entity.Subject.AddResult` | src/Entity/Subject.php:101-108 | the result is contained afterwards, and no duplicate is introduced; a new result is appended and its subject becomes this Subject; an already contained result changes nothing on either side |
| `Entity.Subject.RemoveResult` | src/Entity/Subject.php:110-118 | the result is removed and the other members stay; the result's subject is cleared only if the result was contained and its subject was this Subject; an absent result changes nothing on either side |
| `Entity.Subject.AddExamSession` | src/Entity/Subject.php:128-134 | the session is contained afterwards and is never duplicated; the session itself is not touched |
| `Entity.Subject.RemoveExamSession` | src/Entity/Subject.php:136-140 | the session is removed and every other member stays |
| `Entity.ExamSession.constructor` | src/Entity/ExamSession.php:32-35 | a new session has an empty `subjects` |
| `Entity.ExamSession.SetSessionName` | src/Entity/ExamSession.php:47-51 | only `sessionName` changes |
| `Entity.ExamSession.SetSessionDate` | src/Entity/ExamSession.php:58-62 | only `sessionDate` changes |
| `Entity.ExamSession.SetPublished` | src/Entity/ExamSession.php:69-73 | only `published` changes |
| `Entity.ExamSession.SetCapacityLimit` | src/Entity/ExamSession.php:80-84 | only `capacityLimit` changes |
| `Entity.ExamSession.AddSubject` | src/Entity/ExamSession.php:94-101 | the subject is added without duplicates; only a newly added subject gets this session added to its `examSessions`; a link that was two-sided before is present on both sides afterwards; with `AddIfAbsentIdempotent`, a second call changes nothing |
| `Entity.ExamSession.RemoveSubject` | src/Entity/ExamSession.php:103-109 | the subject is removed; only if it was contained is this session removed from the subject's `examSessions`; a two-sided link without duplicates is gone from both sides; an absent subject changes nothing |
| `Store.EntityManager.Persist` | src/Controller/ApiResultsCommandController.php:152 | a new Result gets the next unused id and is filed under it; nothing committed changes |
| `Store.EntityManager.SnapshotAfterUpdate` | src/Controller/ApiResultsCommandController.php:248-266 | when only one managed Result changed, the rows to flush differ in that row only |
| `Store.EntityManager.Flush` | src/Controller/ApiResultsCommandController.php:153 | the committed rows become the current rows of every managed Result; since every committed row belongs to a managed Result, no row is lost |
| `Controller.Decimal` | src/Controller/ApiResultsCommandController.php:161 | the id is rendered in decimal digits, without a leading zero |
| `Controller.DecimalRoundTrip` | src/Controller/ApiResultsCommandController.php:161 | reading back the decimal rendering of an id gives the id |
| `Controller.LocationAddressesResult` | src/Controller/ApiResultsCommandController.php:160-161 | the Location of a new Result, `RUTA_API + '/' + id`, is the PUT path (`\d+` segment) of that same Result |
| `Controller.PostStatusRange` | src/Controller/ApiResultsCommandController.php:83-164 | POST answers only 201, 400 or 401, and it answers 401 exactly when the caller is not authenticated, whatever the body |
| `Controller.UserIdNotRequired` | src/Controller/ApiResultsCommandController.php:97-104 | `userId` is not one of the required keys |
| `Controller.AllPresentIgnoresUserId` | src/Controller/ApiResultsCommandController.php:106-110 | the required-key check gives the same verdict whatever the body holds under `userId` |
| `Controller.NonAdminUserIdIgnored` | src/Controller/ApiResultsCommandController.php:127-141 | a non-administrator's `userId` is ignored on creation: changing or dropping it leaves the POST status and every required value the same, and no owner is requested |
| `Controller.MissingRequiredKeyIsBadRequest` | src/Controller/ApiResultsCommandController.php:106-110 | removing, nulling or emptying any required key gives 400, for an authenticated POST and for a PUT that passes ownership |
| `Controller.PutNotFoundBeforeBody` | src/Controller/ApiResultsCommandController.php:192-196 | PUT answers 404 exactly when an authenticated caller addresses no Result, whatever the body |
| `Controller.PutAdminNeverForbidden` | src/Controller/ApiResultsCommandController.php:53-55 | PUT never answers 403 to an administrator: the ownership, subject and owner rules all let it through |
| `Controller.PutOwnerSubjectRule` | src/Controller/ApiResultsCommandController.php:228-239 | for a non-admin owner with an otherwise valid body, resubmitting the current subject id (or any id, when the Result has no subject) gives 200, and any other id gives 403 |
| `Controller.RequiredFieldsPresent` | src/Controller/ApiResultsCommandController.php:106-110 | the loop over the required keys succeeds exactly when every key is listed, non-null and not `''` |
| `Controller.NewResult` | src/Controller/ApiResultsCommandController.php:143-150 | the new Result holds the coerced body values, the subject and the owner, and has no id yet |
| `Controller.SetPayloadScalars` | src/Controller/ApiResultsCommandController.php:248-252 | the five scalar fields become the coerced body values; owner, subject and id are unchanged |
| `Controller.ApplySubjectRule` | src/Controller/ApiResultsCommandController.php:228-239 | an administrator's subject is replaced and never refused; for anyone else nothing changes, and the answer is 403 exactly when the current subject exists and has another id |
| `Controller.ResultsCommandController.constructor` | src/Controller/ApiResultsCommandController.php:31 | the controller works on the given entity manager |
| `Controller.ResultsCommandController.CheckAuthUser` | src/Controller/ApiResultsCommandController.php:36-46 | no refusal exactly when the caller is authenticated; otherwise 401 with its fixed message |
| `Controller.ResultsCommandController.CheckResultOwnerOrAdmin` | src/Controller/ApiResultsCommandController.php:51-67 | no refusal exactly when the caller is an administrator or the Result has an owner with the caller's id; otherwise 403 with its fixed message |
| `Controller.ResultsCommandController.ResolveOwner` | src/Controller/ApiResultsCommandController.php:127-141 | the owner is the caller unless an administrator sent a non-empty `userId`; then it is the stored user with that id, or no owner (answered with 400) when there is none |
| `Controller.ResultsCommandController.Create` | src/Controller/ApiResultsCommandController.php:152-163 | the new Result gets a fresh id and is committed with the other managed rows; the answer is 201 with Location `RUTA_API/id` |
| `Controller.ResultsCommandController.PostAction` | src/Controller/ApiResultsCommandController.php:83-164 | starting from the committed rows, the status is `PostStatus`: 401, then missing key, unknown subject, bad date and unknown requested owner (each 400), else 201; every error leaves the store unchanged; on 201 a fresh Result holds the coerced values, the resolved subject and the caller (or the administrator's chosen user) as owner |
| `Controller.ResultsCommandController.PutAction` | src/Controller/ApiResultsCommandController.php:181-273 | starting from the committed rows, the status is `PutStatus`: 401, 404, ownership 403, missing key 400, unknown subject 400, subject rule 403, bad date 400, non-admin `userId` 403, else 200; the owner never changes; on 401 the addressed Result is untouched; the committed rows change only on 200, and then exactly the addressed row changes, to the new scalars and, for an administrator, the new subject |
| `Controller.ResultsCommandController.Replace` | src/Controller/ApiResultsCommandController.php:198-266 | for a found Result and an authenticated caller, the status is `PutStatus`; ownership, a missing key and an unknown subject are refused with the row as it was; the owner never changes; on 200 exactly the addressed row is committed, and otherwise nothing is |
| `Controller.ResultsCommandController.Relink` | src/Controller/ApiResultsCommandController.php:228-266 | once ownership, the keys and the subject passed, the status is `PutStatus`; a refused subject change is 403 with nothing changed; otherwise an administrator's subject is in place before the date check, scalar setters and owner rule; only 200 commits |
| `Controller.ResultsCommandController.Revise` | src/Controller/ApiResultsCommandController.php:241-273 | a bad date is 400 with no change; otherwise the scalars are replaced; a non-admin `userId` is 403 without a commit; otherwise the flush commits, changing the addressed row only, and the answer is 200 |

## Left out

- HTTP plumbing is not modelled: routing, `_format` negotiation and the response
  formatter (`Utils`, which is not part of this model). A response is a status, an
  optional message, an optional Result and an optional Location path. The scheme and
  host prefix of the Location header are not modelled.
- Symfony security is an input: the optional actor and its administrator flag.
- Doctrine is an abstract store. The identity map, cascades, `orphanRemoval`,
  transactions and database failures are not modelled. `persist` assigns the id at once
  (Doctrine assigns an IDENTITY id at `flush`). The difference cannot be observed here,
  because every `persist` is followed by a `flush`.
- `new \DateTimeImmutable` is PHP's permissive date parser, not an ISO 8601 parser. The
  model takes it as an abstract partial function, and a date is an opaque timestamp.
- The PHP casts are abstract total functions. A non-numeric id becomes whatever
  `(int)` yields (0 in PHP) rather than an error. `scoreValue` is modelled as a `real`,
  and floating-point rounding is not modelled.
- Getters are not separate members: a getter is a read of the field, and each setter's
  contract fixes what that read returns afterwards.
- `User` has only its `id`. The rest of `User` is not part of this model.
- The two-sided link is stated for one subject and one session per call. A global
  invariant over all subjects and sessions is not modelled.
- The serializer annotations and the ORM mapping metadata are not modelled. This
  includes the non-nullable join columns, which `setUser(null)` and `setSubject(null)`
  do not enforce.
- PUT never changes the owner: a non-admin's non-empty `userId` gets 403, and an
  administrator's is ignored (src/Controller/ApiResultsCommandController.php:254-264).
- The casts of the body values never fail (PHP casts are total), so neither action has
  a coercion error.
- `remarks` is rejected only when it is `''`. The 255-character limit is a database
  column constraint (src/Entity/Result.php:27), which is not modelled.
- The body holds only scalar values, and it is always well-formed. For an array or
  object value, Symfony's `InputBag::get` throws a bad-request exception, and the
  framework answers 400 without a flush. A body that is not valid JSON gets the same
  400 from `getPayload` (lines 94 and 203). None of these inputs is modelled. So the
  model does not capture, for example, that a non-admin owner's otherwise valid PUT with
  an array-valued `userId` is a 400 (thrown at line 255, after the setters) and not a
  403. Nor does it capture the same 400 for an administrator's array-valued `userId` on
  POST (line 131) or PUT.
