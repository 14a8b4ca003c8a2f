/**
 * ApiResultsCommandController: the two actions that create (POST) and fully replace
 * (PUT) a Result.  Each runs a fixed sequence of checks; the first that fails decides
 * the status code, and only a request that passes every check reaches the single
 * `flush` that changes the committed rows.
 *
 * The security layer is an input: `actor` is None when the caller is not fully
 * authenticated, and otherwise the authenticated User with its ROLE_ADMIN flag.  The
 * request body is a map from key to scalar value.  PHP's loose casts and its
 * date-time parser are the fields of a `PhpRuntime` value passed to each action.
 */
module Controller {
  import opened Wrappers
  import opened Entity
  import opened Store

  /** ApiResultsQueryInterface::RUTA_API, the path prefix of the resource. */
  const RUTA_API: string := "/api/v1/results"

  const KEY_SCORE_VALUE: string := "scoreValue"
  const KEY_PASSED: string := "passed"
  const KEY_GRADED_AT: string := "gradedAt"
  const KEY_ATTEMPT_NUMBER: string := "attemptNumber"
  const KEY_REMARKS: string := "remarks"
  const KEY_SUBJECT_ID: string := "subjectId"
  /** The optional owner key, honoured on creation for administrators only. */
  const KEY_USER_ID: string := "userId"

  /** The keys both actions require, in the order they are checked. */
  const REQUIRED: seq<string> :=
    [KEY_SCORE_VALUE, KEY_PASSED, KEY_GRADED_AT, KEY_ATTEMPT_NUMBER, KEY_REMARKS, KEY_SUBJECT_ID]

  const UNAUTHORIZED_MESSAGE: string := "UNAUTHORIZED: Invalid credentials."
  const FORBIDDEN_MESSAGE: string := "FORBIDDEN: you don't have permission to access"

  /** A scalar value of the request body. */
  datatype Value = Null | Str(s: string) | Int(i: int) | Float(f: real) | Bool(b: bool)

  /** The request body: `keys()` is the domain, `get(key)` is `Get`. */
  type Payload = map<string, Value>

  /** `InputBag::get`: the value under `key`, or null when the key is absent. */
  function Get(payload: Payload, key: string): Value {
    if key in payload then payload[key] else Null
  }

  /** The presence test of the `foreach` over the required keys: listed, not null and not `''`. */
  predicate Present(payload: Payload, key: string) {
    key in payload && Get(payload, key) != Null && Get(payload, key) != Str("")
  }

  predicate AllPresent(payload: Payload) {
    forall i :: 0 <= i < |REQUIRED| ==> Present(payload, REQUIRED[i])
  }

  /** The authenticated caller: the User that `getUser()` returns and whether it holds ROLE_ADMIN. */
  datatype Actor = Actor(user: User, admin: bool)

  /** PHP's `(float)`, `(bool)`, `(int)` and `(string)` casts and `new \DateTimeImmutable` (None: it threw). */
  datatype PhpRuntime = PhpRuntime(
    toFloat: Value -> real,
    toBool: Value -> bool,
    toInt: Value -> int,
    toString: Value -> string,
    newDateTime: string -> Option<DateTime>)

  /** The `(int)` subject id of the body. */
  function SubjectIdOf(payload: Payload, php: PhpRuntime): int {
    php.toInt(Get(payload, KEY_SUBJECT_ID))
  }

  /** The parsed `gradedAt` of the body, None when the parser rejects it. */
  function GradedAtOf(payload: Payload, php: PhpRuntime): Option<DateTime> {
    php.newDateTime(php.toString(Get(payload, KEY_GRADED_AT)))
  }

  /** The `(int)` owner id of the body. */
  function UserIdOf(payload: Payload, php: PhpRuntime): int {
    php.toInt(Get(payload, KEY_USER_ID))
  }

  /** On creation, an administrator who sends a non-empty `userId` names the owner. */
  predicate OwnerRequested(actor: Actor, payload: Payload) {
    actor.admin && Present(payload, KEY_USER_ID)
  }

  /** The ownership rule of checkResultOwnerOrAdmin: an administrator, or the owner of the result. */
  predicate MayModify(actor: Actor, owner: User?) {
    actor.admin || (owner != null && owner.id == actor.user.id)
  }

  /** `row` with the five scalar fields replaced by the coerced values of the body. */
  function WithPayloadScalars(row: ResultRow, payload: Payload, php: PhpRuntime, gradedAt: DateTime): ResultRow {
    row.(
      scoreValue := php.toFloat(Get(payload, KEY_SCORE_VALUE)),
      passed := php.toBool(Get(payload, KEY_PASSED)),
      gradedAt := gradedAt,
      attemptNumber := php.toInt(Get(payload, KEY_ATTEMPT_NUMBER)),
      remarks := php.toString(Get(payload, KEY_REMARKS)))
  }

  /** The status codes the two actions answer with: 200, 201, 400, 401, 403 and 404. */
  datatype Status = HttpOk | HttpCreated | HttpBadRequest | HttpUnauthorized | HttpForbidden | HttpNotFound

  /** A response: its status, the error message if any, the `result` of the body and the Location header. */
  datatype Response = Response(status: Status, message: Option<string>, result: Option<Result>, location: Option<string>)

  /** `Utils::errorMessage`: a response with no resource. */
  function ErrorMessage(status: Status, message: Option<string>): Response {
    Response(status, message, None, None)
  }

  /** The fixed message an error answer carries: 401 and 403 have one, the other errors none. */
  function MessageFor(status: Status): Option<string> {
    match status
    case HttpUnauthorized => Some(UNAUTHORIZED_MESSAGE)
    case HttpForbidden => Some(FORBIDDEN_MESSAGE)
    case _ => None
  }

  // ---- the decision procedures, as functions of what the checks read ----

  /**
   * The status postAction answers with, given the ids of the stored subjects and users:
   * the first check that fails decides it, and 201 when none fails.
   */
  function PostStatus(actor: Option<Actor>, payload: Payload, php: PhpRuntime, subjectIds: set<int>, userIds: set<int>): Status {
    if actor.None? then HttpUnauthorized
    else if !AllPresent(payload) then HttpBadRequest
    else if SubjectIdOf(payload, php) !in subjectIds then HttpBadRequest
    else if GradedAtOf(payload, php).None? then HttpBadRequest
    else if OwnerRequested(actor.value, payload) && UserIdOf(payload, php) !in userIds then HttpBadRequest
    else HttpCreated
  }

  /**
   * What putAction's checks read of the Result it addresses: its owner, and its current
   * subject (None when it has none; otherwise that subject's own nullable id).
   */
  datatype Target = Target(owner: User?, subject: Option<Option<int>>)

  function TargetOf(result: Result): (t: Target)
    reads result, result.subject
    ensures t.owner == result.user && (t.subject.None? <==> result.subject == null)
  {
    Target(result.user, if result.subject == null then None else Some(result.subject.id))
  }

  /** The subject rule: a non-administrator may not move a Result that has a subject to a subject with another id. */
  predicate SubjectChangeDenied(actor: Actor, current: Option<Option<int>>, requested: int) {
    !actor.admin && current.Some? && current.value != Some(requested)
  }

  /**
   * The status putAction answers with, given the Result it addresses (None: no Result has
   * that id) and the ids of the stored subjects: the first check that fails decides it,
   * and 200 when none fails.
   */
  function PutStatus(actor: Option<Actor>, target: Option<Target>, payload: Payload, php: PhpRuntime, subjectIds: set<int>): Status {
    if actor.None? then HttpUnauthorized
    else if target.None? then HttpNotFound
    else if !MayModify(actor.value, target.value.owner) then HttpForbidden
    else if !AllPresent(payload) then HttpBadRequest
    else if SubjectIdOf(payload, php) !in subjectIds then HttpBadRequest
    else if SubjectChangeDenied(actor.value, target.value.subject, SubjectIdOf(payload, php)) then HttpForbidden
    else if GradedAtOf(payload, php).None? then HttpBadRequest
    else if !actor.value.admin && Present(payload, KEY_USER_ID) then HttpForbidden
    else HttpOk
  }

  /**
   * The row of the Result that postAction creates under `id` once every check passed: the
   * coerced body, the stored subject, and as owner the caller, or the stored user an
   * administrator named.
   */
  function CreatedRow(id: int, actor: Actor, payload: Payload, php: PhpRuntime,
                      subjects: map<int, Subject>, users: map<int, User>): ResultRow
    requires SubjectIdOf(payload, php) in subjects && GradedAtOf(payload, php).Some?
    requires OwnerRequested(actor, payload) ==> UserIdOf(payload, php) in users
  {
    ResultRow(
      Some(id),
      php.toFloat(Get(payload, KEY_SCORE_VALUE)),
      php.toBool(Get(payload, KEY_PASSED)),
      GradedAtOf(payload, php).value,
      php.toInt(Get(payload, KEY_ATTEMPT_NUMBER)),
      php.toString(Get(payload, KEY_REMARKS)),
      if OwnerRequested(actor, payload) then users[UserIdOf(payload, php)] else actor.user,
      subjects[SubjectIdOf(payload, php)])
  }

  /** POST answers only 201, 400 or 401, and 401 exactly when the caller is not authenticated. */
  lemma PostStatusRange(actor: Option<Actor>, payload: Payload, php: PhpRuntime, subjectIds: set<int>, userIds: set<int>)
    ensures PostStatus(actor, payload, php, subjectIds, userIds) in {HttpCreated, HttpBadRequest, HttpUnauthorized}
    ensures PostStatus(actor, payload, php, subjectIds, userIds) == HttpUnauthorized <==> actor.None?
  {
  }

  /** `userId` is not among the required keys. */
  lemma UserIdNotRequired()
    ensures KEY_USER_ID !in REQUIRED
  {
    assert KEY_USER_ID[0] == 'u';
    forall i | 0 <= i < |REQUIRED| ensures REQUIRED[i] != KEY_USER_ID {
      assert REQUIRED[i][0] != 'u';
    }
  }

  /** Whatever a request sends under `userId`, the required-key check reaches the same verdict. */
  lemma {:induction false} AllPresentIgnoresUserId(payload: Payload, v: Option<Value>)
    ensures AllPresent(payload) <==> AllPresent(if v.Some? then payload[KEY_USER_ID := v.value] else payload - {KEY_USER_ID})
  {
    UserIdNotRequired();
    var other := if v.Some? then payload[KEY_USER_ID := v.value] else payload - {KEY_USER_ID};
    forall i | 0 <= i < |REQUIRED| ensures Present(payload, REQUIRED[i]) <==> Present(other, REQUIRED[i]) {
      assert REQUIRED[i] != KEY_USER_ID;
    }
  }

  /**
   * A non-administrator's `userId` is silently ignored on creation: replacing it by any
   * other value, or dropping it, leaves the answer and the fields of the new Result as
   * they were, and the owner is the caller.
   */
  lemma NonAdminUserIdIgnored(actor: Actor, payload: Payload, v: Option<Value>, php: PhpRuntime,
                              subjectIds: set<int>, userIds: set<int>)
    requires !actor.admin
    ensures var other := if v.Some? then payload[KEY_USER_ID := v.value] else payload - {KEY_USER_ID};
      && PostStatus(Some(actor), other, php, subjectIds, userIds) == PostStatus(Some(actor), payload, php, subjectIds, userIds)
      && !OwnerRequested(actor, payload) && !OwnerRequested(actor, other)
      && forall k :: k in REQUIRED ==> Get(other, k) == Get(payload, k)
  {
    AllPresentIgnoresUserId(payload, v);
    UserIdNotRequired();
  }

  /**
   * Removing, nulling or emptying any one required key makes an authenticated POST a 400,
   * and a PUT that passes ownership a 400, whatever else the request holds.
   */
  lemma {:induction false} MissingRequiredKeyIsBadRequest(payload: Payload, k: string, v: Option<Value>, php: PhpRuntime,
                                                          actor: Actor, target: Target, subjectIds: set<int>, userIds: set<int>)
    requires k in REQUIRED
    requires v.None? || v == Some(Null) || v == Some(Str(""))
    ensures var bad := if v.Some? then payload[k := v.value] else payload - {k};
      && PostStatus(Some(actor), bad, php, subjectIds, userIds) == HttpBadRequest
      && (MayModify(actor, target.owner) ==> PutStatus(Some(actor), Some(target), bad, php, subjectIds) == HttpBadRequest)
  {
    var bad := if v.Some? then payload[k := v.value] else payload - {k};
    var i :| 0 <= i < |REQUIRED| && REQUIRED[i] == k;
    assert !Present(bad, REQUIRED[i]);
  }

  /** PUT answers 404 exactly when an authenticated caller addresses no Result, whatever the body. */
  lemma PutNotFoundBeforeBody(actor: Option<Actor>, target: Option<Target>, payload: Payload, php: PhpRuntime, subjectIds: set<int>)
    ensures PutStatus(actor, target, payload, php, subjectIds) == HttpNotFound <==> actor.Some? && target.None?
  {
  }

  /** An administrator is never refused with 403 by PUT: ownership, subject and owner rules all let it through. */
  lemma PutAdminNeverForbidden(actor: Actor, target: Option<Target>, payload: Payload, php: PhpRuntime, subjectIds: set<int>)
    requires actor.admin
    ensures PutStatus(Some(actor), target, payload, php, subjectIds) != HttpForbidden
  {
  }

  /**
   * For the owner who is not an administrator and sends a complete body without `userId`,
   * for a stored subject and a valid date: resubmitting the Result's current subject id
   * (or any id, when it has no subject) is 200, and any other id is 403.
   */
  lemma PutOwnerSubjectRule(actor: Actor, target: Target, payload: Payload, php: PhpRuntime, subjectIds: set<int>)
    requires !actor.admin && target.owner != null && target.owner.id == actor.user.id
    requires AllPresent(payload) && SubjectIdOf(payload, php) in subjectIds && GradedAtOf(payload, php).Some?
    requires !Present(payload, KEY_USER_ID)
    ensures PutStatus(Some(actor), Some(target), payload, php, subjectIds) ==
      if target.subject.None? || target.subject.value == Some(SubjectIdOf(payload, php)) then HttpOk else HttpForbidden
  {
  }

  // ---- Location header and the resultId route parameter ----

  predicate IsDigits(s: string) {
    |s| > 0 && forall i :: 0 <= i < |s| ==> '0' <= s[i] <= '9'
  }

  /** PHP's decimal rendering of a non-negative integer, as concatenated into the Location header. */
  function Decimal(n: nat): (s: string)
    ensures IsDigits(s)
    ensures s[0] == '0' ==> n == 0
  {
    if n < 10 then [(48 + n) as char] else Decimal(n / 10) + [(48 + n % 10) as char]
  }

  /** The integer a `\d+` route segment denotes. */
  function DigitsValue(s: string): nat
    requires forall i :: 0 <= i < |s| ==> '0' <= s[i] <= '9'
  {
    if |s| == 0 then 0 else 10 * DigitsValue(s[..|s| - 1]) + (s[|s| - 1] as int - 48)
  }

  /** Reading back the decimal rendering of `n` gives `n`. */
  lemma {:induction false} DecimalRoundTrip(n: nat)
    ensures DigitsValue(Decimal(n)) == n
  {
    if n >= 10 {
      DecimalRoundTrip(n / 10);
      var s := Decimal(n);
      assert s[..|s| - 1] == Decimal(n / 10);
    }
  }

  /** The Location path of the Result with identifier `id`. */
  function Location(id: nat): string {
    RUTA_API + "/" + Decimal(id)
  }

  /** The `resultId` the PUT route `RUTA_API/{resultId}` with requirement `\d+` extracts from a path. */
  function ResultIdFromPath(path: string): Option<nat> {
    var prefix := RUTA_API + "/";
    if |path| > |prefix| && path[..|prefix|] == prefix && IsDigits(path[|prefix|..])
    then Some(DigitsValue(path[|prefix|..]))
    else None
  }

  /** The Location of a created Result is a PUT path that addresses that same Result. */
  lemma LocationAddressesResult(id: nat)
    ensures ResultIdFromPath(Location(id)) == Some(id)
  {
    var prefix := RUTA_API + "/";
    var path := Location(id);
    assert path[..|prefix|] == prefix;
    assert path[|prefix|..] == Decimal(id);
    DecimalRoundTrip(id);
  }

  // ---- the checks and the two actions ----

  /** The `foreach` over the required keys: true exactly when every one of them is present. */
  method RequiredFieldsPresent(payload: Payload) returns (complete: bool)
    ensures complete <==> AllPresent(payload)
  {
    var i := 0;
    while i < |REQUIRED|
      invariant 0 <= i <= |REQUIRED|
      invariant forall j :: 0 <= j < i ==> Present(payload, REQUIRED[j])
    {
      var key := REQUIRED[i];
      if key !in payload || Get(payload, key) == Null || Get(payload, key) == Str("") {
        return false;
      }
      i := i + 1;
    }
    return true;
  }

  /** The new Result of postAction: the coerced body, the subject and the owner; no identifier yet. */
  method NewResult(payload: Payload, php: PhpRuntime, gradedAt: DateTime, subject: Subject, owner: User)
    returns (result: Result)
    ensures fresh(result)
    ensures result.Row() == WithPayloadScalars(ResultRow(None, 0.0, false, gradedAt, 0, "", owner, subject), payload, php, gradedAt)
  {
    result := new Result();
    result.SetScoreValue(php.toFloat(Get(payload, KEY_SCORE_VALUE)));
    result.SetPassed(php.toBool(Get(payload, KEY_PASSED)));
    result.SetGradedAt(gradedAt);
    result.SetAttemptNumber(php.toInt(Get(payload, KEY_ATTEMPT_NUMBER)));
    result.SetRemarks(php.toString(Get(payload, KEY_REMARKS)));
    result.SetSubject(subject);
    result.SetUser(owner);
  }

  /** The five scalar setters of putAction: the coerced body replaces them, nothing else changes. */
  method SetPayloadScalars(result: Result, payload: Payload, php: PhpRuntime, gradedAt: DateTime)
    modifies result
    ensures result.Row() == WithPayloadScalars(old(result.Row()), payload, php, gradedAt)
  {
    result.SetScoreValue(php.toFloat(Get(payload, KEY_SCORE_VALUE)));
    result.SetPassed(php.toBool(Get(payload, KEY_PASSED)));
    result.SetGradedAt(gradedAt);
    result.SetAttemptNumber(php.toInt(Get(payload, KEY_ATTEMPT_NUMBER)));
    result.SetRemarks(php.toString(Get(payload, KEY_REMARKS)));
  }

  /**
   * The subject rule of putAction: an administrator's request replaces the subject; for
   * anyone else the subject stays as it is, and a current subject whose id differs from
   * the requested one is refused with 403.
   */
  method ApplySubjectRule(result: Result, actor: Actor, subject: Subject) returns (denied: Option<Response>)
    modifies result
    ensures actor.admin ==> denied.None? && result.Row() == old(result.Row()).(subject := subject)
    ensures !actor.admin ==> result.Row() == old(result.Row())
    ensures !actor.admin ==> (denied.Some? <==> old(result.subject) != null && old(result.subject.id) != subject.id)
    ensures denied.Some? ==> denied.value == ErrorMessage(HttpForbidden, Some(FORBIDDEN_MESSAGE))
  {
    if actor.admin {
      result.SetSubject(subject);
    } else {
      var currentSubject := result.subject;
      if currentSubject != null && currentSubject.id != subject.id {
        return Some(ErrorMessage(HttpForbidden, Some(FORBIDDEN_MESSAGE)));
      }
    }
    return None;
  }

  class ResultsCommandController {
    const entityManager: EntityManager

    constructor (entityManager: EntityManager)
      ensures this.entityManager == entityManager
    {
      this.entityManager := entityManager;
    }

    /** checkAuthUser: no response for an authenticated caller, otherwise 401 with its fixed message. */
    method CheckAuthUser(actor: Option<Actor>) returns (denied: Option<Response>)
      ensures denied.None? <==> actor.Some?
      ensures denied.Some? ==> denied.value == ErrorMessage(HttpUnauthorized, Some(UNAUTHORIZED_MESSAGE))
    {
      if actor.None? {
        return Some(ErrorMessage(HttpUnauthorized, Some(UNAUTHORIZED_MESSAGE)));
      }
      return None;
    }

    /**
     * checkResultOwnerOrAdmin: an administrator always passes; anyone else passes only
     * when the result has an owner whose id is the caller's, and otherwise gets 403.
     */
    method CheckResultOwnerOrAdmin(result: Result, actor: Actor) returns (denied: Option<Response>)
      ensures denied.None? <==> actor.admin || (result.user != null && result.user.id == actor.user.id)
      ensures denied.Some? ==> denied.value == ErrorMessage(HttpForbidden, Some(FORBIDDEN_MESSAGE))
    {
      if actor.admin {
        return None;
      }
      var owner := result.user;
      if owner == null || owner.id != actor.user.id {
        return Some(ErrorMessage(HttpForbidden, Some(FORBIDDEN_MESSAGE)));
      }
      return None;
    }

    /**
     * The owner rule of postAction: the caller, unless an administrator sent a non-empty
     * `userId`; then the user with that id, or None (answered with 400) when there is none.
     */
    method ResolveOwner(actor: Actor, payload: Payload, php: PhpRuntime) returns (owner: Option<User>)
      requires entityManager.Valid()
      ensures owner.Some? && OwnerRequested(actor, payload) ==> owner.value.id == UserIdOf(payload, php)
      ensures !OwnerRequested(actor, payload) ==> owner == Some(actor.user)
      ensures OwnerRequested(actor, payload) ==>
        if UserIdOf(payload, php) in entityManager.users
        then owner == Some(entityManager.users[UserIdOf(payload, php)])
        else owner.None?
    {
      owner := Some(actor.user);
      if actor.admin && KEY_USER_ID in payload && Get(payload, KEY_USER_ID) != Null
        && Get(payload, KEY_USER_ID) != Str("")
      {
        var userId := php.toInt(Get(payload, KEY_USER_ID));
        if userId !in entityManager.users {
          return None;
        }
        owner := Some(entityManager.users[userId]);
      }
    }

    /**
     * The end of postAction: persist and flush the new Result, and answer 201 with its
     * Location.  The Result receives the next identifier, and the committed rows become
     * the rows of the managed Results, the new one included.
     */
    method Create(result: Result) returns (response: Response)
      requires entityManager.Valid() && result.id.None?
      modifies entityManager, result
      ensures entityManager.Valid()
      ensures var id := old(entityManager.nextId);
        && response == Response(HttpCreated, None, Some(result), Some(Location(id)))
        && result.Row() == old(result.Row()).(id := Some(id))
        && id !in old(entityManager.results) && id !in old(entityManager.committed)
        && entityManager.results == old(entityManager.results)[id := result]
        && entityManager.subjects == old(entityManager.subjects) && entityManager.users == old(entityManager.users)
        && entityManager.committed == old(entityManager.Snapshot())[id := result.Row()]
    {
      assert result !in entityManager.results.Values by {
        forall k | k in entityManager.results ensures entityManager.results[k] != result {
          assert entityManager.results[k].id == Some(k);
        }
      }
      entityManager.Persist(result);
      entityManager.Flush();
      var id := result.id.value;
      return Response(HttpCreated, None, Some(result), Some(Location(id)));
    }

    /**
     * postAction.  Checks, in order: authentication (401), the required keys (400), the
     * subject (400), the date (400) and, for an administrator who names an owner, that
     * owner (400).  Then a new Result holding the coerced body, the subject and the owner
     * (the caller unless an administrator named another user) is persisted and flushed,
     * and the answer is 201 with its Location.  A failed check changes nothing.  The
     * request starts from the committed rows (`Synced`).
     */
    method PostAction(actor: Option<Actor>, payload: Payload, php: PhpRuntime) returns (response: Response)
      requires entityManager.Valid() && entityManager.Synced()
      modifies entityManager
      ensures entityManager.Valid()
      ensures response.status != HttpCreated ==> unchanged(entityManager)
      ensures response.status == PostStatus(actor, payload, php, old(entityManager.subjects).Keys, old(entityManager.users).Keys)
      ensures response.status != HttpCreated ==> response == ErrorMessage(response.status, MessageFor(response.status))
      ensures response.status == HttpCreated ==>
        && actor.Some? && response.result.Some?
        && var result, id := response.result.value, old(entityManager.nextId);
        && fresh(result)
        && id !in old(entityManager.results) && id !in old(entityManager.committed)
        && result.Row() == CreatedRow(id, actor.value, payload, php, old(entityManager.subjects), old(entityManager.users))
        && response.location == Some(Location(id))
        && entityManager.results == old(entityManager.results)[id := result]
        && entityManager.subjects == old(entityManager.subjects)
        && entityManager.users == old(entityManager.users)
        && entityManager.committed == old(entityManager.Snapshot())[id := result.Row()]
    {
      var denied := CheckAuthUser(actor);
      if denied.Some? {
        return denied.value;
      }

      var complete := RequiredFieldsPresent(payload);
      if !complete {
        return ErrorMessage(HttpBadRequest, None);
      }

      var subjectId := php.toInt(Get(payload, KEY_SUBJECT_ID));
      if subjectId !in entityManager.subjects {
        return ErrorMessage(HttpBadRequest, None);
      }
      var subject := entityManager.subjects[subjectId];

      var gradedAt := php.newDateTime(php.toString(Get(payload, KEY_GRADED_AT)));
      if gradedAt.None? {
        return ErrorMessage(HttpBadRequest, None);
      }

      var owner := ResolveOwner(actor.value, payload, php);
      if owner.None? {
        return ErrorMessage(HttpBadRequest, None);
      }

      var result := NewResult(payload, php, gradedAt.value, subject, owner.value);
      assert entityManager.Snapshot() == old(entityManager.Snapshot());
      response := Create(result);
      assert result.Row() == CreatedRow(result.id.value, actor.value, payload, php, entityManager.subjects, entityManager.users);
    }

    /**
     * putAction.  Checks, in order: authentication (401), that the result exists (404),
     * ownership (403), the required keys (400), the subject (400), the subject rule (an
     * administrator's subject replaces the current one; anyone else gets 403 for a
     * different subject id), the date (400) and the owner rule (403 for a non-empty
     * `userId` from a non-administrator; from an administrator it is ignored).  Then the
     * result is flushed with its five scalar fields replaced, and the answer is 200.
     * Only the addressed Result can change (the modifies clause), its owner never
     * does, and only the 200 path changes the committed rows.  The checks after the
     * subject rule run on the live object already updated (subject, then scalars), so a
     * failure there leaves it changed but not committed; the request starts from the
     * committed rows (`Synced`), and those uncommitted changes end with it.
     */
    method PutAction(actor: Option<Actor>, resultId: int, payload: Payload, php: PhpRuntime) returns (response: Response)
      requires entityManager.Valid() && entityManager.Synced()
      modifies entityManager, if resultId in entityManager.results then {entityManager.results[resultId]} else {}
      ensures entityManager.Valid()
      ensures entityManager.results == old(entityManager.results)
      ensures entityManager.subjects == old(entityManager.subjects) && entityManager.users == old(entityManager.users)
      ensures entityManager.nextId == old(entityManager.nextId)
      ensures response.status != HttpOk ==> entityManager.committed == old(entityManager.committed)
      ensures resultId in old(entityManager.results) ==>
        entityManager.results[resultId].user == old(entityManager.results[resultId].user)
      ensures response.status == old(PutStatus(actor,
        if resultId in entityManager.results then Some(TargetOf(entityManager.results[resultId])) else None,
        payload, php, entityManager.subjects.Keys))
      ensures response.status != HttpOk ==> response == ErrorMessage(response.status, MessageFor(response.status))
      ensures actor.None? && resultId in old(entityManager.results) ==>
        entityManager.results[resultId].Row() == old(entityManager.results[resultId].Row())
      ensures response.status == HttpOk ==>
        entityManager.committed == old(entityManager.Snapshot())[resultId := entityManager.results[resultId].Row()]
      ensures actor.Some? && resultId in old(entityManager.results) ==>
        ReplacedAs(actor.value, old(entityManager.results[resultId].Row()), entityManager.results[resultId],
                   old(entityManager.subjects), payload, php, response)
    {
      var denied := CheckAuthUser(actor);
      if denied.Some? {
        return denied.value;
      }

      if resultId !in entityManager.results {
        return ErrorMessage(HttpNotFound, None);
      }
      response := Replace(resultId, actor.value, payload, php);
    }

    /**
     * How putAction leaves the Result it found, whose row was `before`, and what it answers,
     * check by check: the refusals before the subject rule leave the row as it was; with
     * the subject rule passed an administrator's subject is in place; with the date parsed
     * the five scalars are replaced; only the 200 answer carries the Result.
     */
    ghost predicate ReplacedAs(a: Actor, before: ResultRow, result: Result, subjects: map<int, Subject>,
                               payload: Payload, php: PhpRuntime, response: Response)
      reads result, before.subject
    {
      if !MayModify(a, before.user) then
        response == ErrorMessage(HttpForbidden, Some(FORBIDDEN_MESSAGE)) && result.Row() == before
      else if !AllPresent(payload) then
        response == ErrorMessage(HttpBadRequest, None) && result.Row() == before
      else if SubjectIdOf(payload, php) !in subjects then
        response == ErrorMessage(HttpBadRequest, None) && result.Row() == before
      else
        RelinkedAs(a, before, result, SubjectIdOf(payload, php), subjects[SubjectIdOf(payload, php)], payload, php, response)
    }

    /**
     * How putAction leaves the Result whose row was `before` from the subject rule on, for
     * the stored subject `subject` filed under `subjectId`: a refused subject change is
     * 403 with nothing changed; otherwise an administrator's subject is put in place and
     * the rest is `RevisedAs`.
     */
    ghost predicate RelinkedAs(a: Actor, before: ResultRow, result: Result, subjectId: int, subject: Subject,
                               payload: Payload, php: PhpRuntime, response: Response)
      reads result, before.subject
    {
      if SubjectChangeDenied(a, if before.subject == null then None else Some(before.subject.id), subjectId) then
        response == ErrorMessage(HttpForbidden, Some(FORBIDDEN_MESSAGE)) && result.Row() == before
      else
        RevisedAs(a, if a.admin then before.(subject := subject) else before, result, payload, php, response)
    }

    /**
     * How the end of putAction leaves the Result whose row was `before`, and what it
     * answers: a bad date is 400 with nothing changed; otherwise the five scalars are
     * replaced, and the answer is 403 for a non-empty `userId` from anyone but an
     * administrator, else 200 with the Result.
     */
    ghost predicate RevisedAs(a: Actor, before: ResultRow, result: Result, payload: Payload, php: PhpRuntime, response: Response)
      reads result
    {
      if GradedAtOf(payload, php).None? then
        response == ErrorMessage(HttpBadRequest, None) && result.Row() == before
      else
        var after := WithPayloadScalars(before, payload, php, GradedAtOf(payload, php).value);
        if !a.admin && Present(payload, KEY_USER_ID) then
          response == ErrorMessage(HttpForbidden, Some(FORBIDDEN_MESSAGE)) && result.Row() == after
        else
          response == Response(HttpOk, None, Some(result), None) && result.Row() == after
    }

    /**
     * putAction from the point where the Result filed under `resultId` has been found for
     * an authenticated caller: ownership (403), the required keys (400), the subject (400),
     * the subject rule (403), then the date, the scalar setters, the owner rule and the
     * flush of `Revise`.
     */
    method Replace(resultId: int, actor: Actor, payload: Payload, php: PhpRuntime) returns (response: Response)
      requires entityManager.Valid() && resultId in entityManager.results
      modifies entityManager, entityManager.results[resultId]
      ensures entityManager.Valid()
      ensures entityManager.results == old(entityManager.results)
      ensures entityManager.subjects == old(entityManager.subjects) && entityManager.users == old(entityManager.users)
      ensures entityManager.nextId == old(entityManager.nextId)
      ensures response.status != HttpOk ==> entityManager.committed == old(entityManager.committed)
      ensures entityManager.results[resultId].user == old(entityManager.results[resultId].user)
      ensures response.status == old(PutStatus(Some(actor), Some(TargetOf(entityManager.results[resultId])),
        payload, php, entityManager.subjects.Keys))
      ensures response.status != HttpOk ==> response == ErrorMessage(response.status, MessageFor(response.status))
      ensures response.status == HttpOk ==>
        entityManager.committed == old(entityManager.Snapshot())[resultId := entityManager.results[resultId].Row()]
      ensures ReplacedAs(actor, old(entityManager.results[resultId].Row()), entityManager.results[resultId],
                         old(entityManager.subjects), payload, php, response)
    {
      var result := entityManager.results[resultId];
      ghost var before := result.Row();

      var denied := CheckResultOwnerOrAdmin(result, actor);
      if denied.Some? {
        return denied.value;
      }

      var complete := RequiredFieldsPresent(payload);
      if !complete {
        return ErrorMessage(HttpBadRequest, None);
      }

      var subjectId := php.toInt(Get(payload, KEY_SUBJECT_ID));
      if subjectId !in entityManager.subjects {
        return ErrorMessage(HttpBadRequest, None);
      }
      response := Relink(resultId, actor, subjectId, payload, php);
    }

    /**
     * putAction from the subject rule on, once the requested subject `subjectId` has been
     * found: the subject rule (403), then the date, the scalar setters, the owner rule and
     * the flush of `Revise`.
     */
    method Relink(resultId: int, actor: Actor, subjectId: int, payload: Payload, php: PhpRuntime) returns (response: Response)
      requires entityManager.Valid() && resultId in entityManager.results && subjectId in entityManager.subjects
      requires MayModify(actor, entityManager.results[resultId].user) && AllPresent(payload)
      requires subjectId == SubjectIdOf(payload, php)
      modifies entityManager, entityManager.results[resultId]
      ensures response.status == old(PutStatus(Some(actor), Some(TargetOf(entityManager.results[resultId])),
        payload, php, entityManager.subjects.Keys))
      ensures response.status != HttpOk ==> response == ErrorMessage(response.status, MessageFor(response.status))
      ensures entityManager.Valid()
      ensures entityManager.results == old(entityManager.results)
      ensures entityManager.subjects == old(entityManager.subjects) && entityManager.users == old(entityManager.users)
      ensures entityManager.nextId == old(entityManager.nextId)
      ensures response.status != HttpOk ==> entityManager.committed == old(entityManager.committed)
      ensures entityManager.results[resultId].user == old(entityManager.results[resultId].user)
      ensures response.status == HttpOk ==>
        entityManager.committed == old(entityManager.Snapshot())[resultId := entityManager.results[resultId].Row()]
      ensures RelinkedAs(actor, old(entityManager.results[resultId].Row()), entityManager.results[resultId],
                         subjectId, entityManager.subjects[subjectId], payload, php, response)
    {
      var result := entityManager.results[resultId];
      var subject := entityManager.subjects[subjectId];
      var denied := ApplySubjectRule(result, actor, subject);
      if denied.Some? {
        return denied.value;
      }

      response := Revise(resultId, actor, payload, php);
      entityManager.SnapshotAfterUpdate(resultId);
    }

    /**
     * The end of putAction, on the Result filed under `resultId`: the date (400), the
     * five scalar setters, the owner rule (403 for a non-empty `userId` from anyone
     * but an administrator) and the flush with its 200 answer.  A failure after the
     * setters leaves the object changed but not committed.
     */
    method Revise(resultId: int, actor: Actor, payload: Payload, php: PhpRuntime) returns (response: Response)
      requires entityManager.Valid() && resultId in entityManager.results
      modifies entityManager, entityManager.results[resultId]
      ensures entityManager.Valid()
      ensures entityManager.results == old(entityManager.results)
      ensures entityManager.subjects == old(entityManager.subjects) && entityManager.users == old(entityManager.users)
      ensures entityManager.nextId == old(entityManager.nextId)
      ensures response.status != HttpOk ==> entityManager.committed == old(entityManager.committed)
      ensures RevisedAs(actor, old(entityManager.results[resultId].Row()), entityManager.results[resultId], payload, php, response)
      ensures response.status == HttpOk ==>
        && entityManager.committed == entityManager.Snapshot()
        && entityManager.committed == old(entityManager.Snapshot())[resultId := entityManager.results[resultId].Row()]
    {
      var result := entityManager.results[resultId];
      var gradedAt := php.newDateTime(php.toString(Get(payload, KEY_GRADED_AT)));
      if gradedAt.None? {
        return ErrorMessage(HttpBadRequest, None);
      }

      SetPayloadScalars(result, payload, php, gradedAt.value);

      if KEY_USER_ID in payload && Get(payload, KEY_USER_ID) != Null && Get(payload, KEY_USER_ID) != Str("") {
        if !actor.admin {
          return ErrorMessage(HttpForbidden, Some(FORBIDDEN_MESSAGE));
        }
      }

      entityManager.SnapshotAfterUpdate(resultId);
      entityManager.Flush();
      return Response(HttpOk, None, Some(result), None);
    }
  }
}
