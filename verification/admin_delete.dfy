/** The `DELETE /api/users/:adminId` route of the middleware example: the
    `isAdmin` guard, the request log, the body validators and the handler run
    in that order over one in-memory user list.

    `parseInt` and the e-mail validator are parameters; `None` from
    `parseInt` stands for NaN, which is equal to no id. */
module AdminDelete {
  import opened Options
  import JsArray

  datatype User = User(id: int, firstName: string, lastName: string, email: string, role: string)

  /** The JSON body; a field the client did not send is `None`. */
  datatype Body = Body(firstName: Option<string>, lastName: Option<string>, email: Option<string>)

  /** What the route reads: the `:adminId` path parameter, the body and the
      `userId` query parameter. */
  datatype Request = Request(adminId: string, body: Body, userId: Option<string>)

  datatype FieldError = FieldError(field: string, message: string)

  datatype Payload = Text(text: string) | Errors(errors: seq<FieldError>) | UserList(users: seq<User>)

  datatype Response = Response(status: nat, payload: Payload)

  /** The user list after the request, and the response sent. */
  datatype Exchange = Exchange(users: seq<User>, response: Response)

  const Ok: nat := 200
  const BadRequest: nat := 400
  const Forbidden: nat := 403
  const NotFoundStatus: nat := 404

  const MinNameLength: nat := 3
  const MaxNameLength: nat := 20

  const ForbiddenMessage: string := "Only admins can access this route"
  const MissingUserIdMessage: string := "User ID to delete is required"
  const UserNotFoundMessage: string := "User not found"

  const FirstNameError := FieldError("first_name", "First name must be between 3 and 20 characters")
  const LastNameError := FieldError("last_name", "Last name must be between 3 and 20 characters")
  const EmailError := FieldError("email", "Must be a valid email")

  /** The user carries the parsed id; an unparsable id (NaN) matches nobody. */
  predicate HasId(u: User, id: Option<int>) {
    id == Some(u.id)
  }

  predicate IsAdminUser(u: User, id: Option<int>) {
    HasId(u, id) && u.role == "admin"
  }

  /** The `isAdmin` guard: some user has the parsed admin id and the role `admin`. */
  function IsAdmin(users: seq<User>, adminId: Option<int>): (ok: bool)
    ensures ok <==> exists i :: 0 <= i < |users| && IsAdminUser(users[i], adminId)
  {
    JsArray.FindIndex(users, u => IsAdminUser(u, adminId)).Some?
  }

  /** A field is validated as a string; a missing one as `""`. */
  function FieldValue(f: Option<string>): string {
    if f.Some? then f.value else ""
  }

  predicate NameLengthOk(name: string) {
    MinNameLength <= |name| <= MaxNameLength
  }

  /** Where each check stands among the declared validators. */
  function Rank(e: FieldError): nat {
    if e == FirstNameError then 0 else if e == LastNameError then 1 else 2
  }

  /** The `validateUser` checks as collected by `validationResult`: one error
      per failing check, in the order the checks are declared. */
  function Validate(body: Body, isEmail: string -> bool): (errs: seq<FieldError>)
    ensures errs == [] <==>
              && NameLengthOk(FieldValue(body.firstName))
              && NameLengthOk(FieldValue(body.lastName))
              && isEmail(FieldValue(body.email))
    ensures FirstNameError in errs <==> !NameLengthOk(FieldValue(body.firstName))
    ensures LastNameError in errs <==> !NameLengthOk(FieldValue(body.lastName))
    ensures EmailError in errs <==> !isEmail(FieldValue(body.email))
    ensures forall e :: e in errs ==> e in [FirstNameError, LastNameError, EmailError]
    ensures |errs| <= 3
    ensures forall i, j :: 0 <= i < j < |errs| ==> Rank(errs[i]) < Rank(errs[j])
  {
    (if NameLengthOk(FieldValue(body.firstName)) then [] else [FirstNameError])
    + (if NameLengthOk(FieldValue(body.lastName)) then [] else [LastNameError])
    + (if isEmail(FieldValue(body.email)) then [] else [EmailError])
  }

  /** The route's final handler, which runs once the admin check has passed:
      validation errors, then the `userId` query, then the lookup and splice. */
  function Handle(users: seq<User>, req: Request, parseInt: string -> Option<int>,
                  isEmail: string -> bool): (x: Exchange)
    ensures x.response.status in {Ok, BadRequest, NotFoundStatus}
    ensures x.response.status != Ok ==> x.users == users
    ensures Validate(req.body, isEmail) != [] ==>
              x.response == Response(BadRequest, Errors(Validate(req.body, isEmail)))
    ensures x.response.status == Ok ==>
              && Validate(req.body, isEmail) == []
              && req.userId.Some? && req.userId.value != ""
              && RemovedFirstWithId(users, x.users, parseInt(req.userId.value))
              && x.response.payload == UserList(x.users)
    ensures && Validate(req.body, isEmail) == []
            && req.userId.Some? && req.userId.value != ""
            && (exists j :: 0 <= j < |users| && HasId(users[j], parseInt(req.userId.value)))
            ==> x.response.status == Ok
    ensures x.response.status == BadRequest && Validate(req.body, isEmail) == [] ==>
              x.response.payload == Text(MissingUserIdMessage)
    ensures x.response.status == NotFoundStatus ==> x.response.payload == Text(UserNotFoundMessage)
    ensures x.response.status == NotFoundStatus <==>
              && Validate(req.body, isEmail) == []
              && req.userId.Some? && req.userId.value != ""
              && forall j :: 0 <= j < |users| ==> !HasId(users[j], parseInt(req.userId.value))
  {
    var errs := Validate(req.body, isEmail);
    if errs != [] then Exchange(users, Response(BadRequest, Errors(errs)))
    else if req.userId.None? || req.userId.value == "" then
      Exchange(users, Response(BadRequest, Text(MissingUserIdMessage)))
    else
      var id := parseInt(req.userId.value);
      match JsArray.FindIndex(users, u => HasId(u, id))
      case None => Exchange(users, Response(NotFoundStatus, Text(UserNotFoundMessage)))
      case Some(i) =>
        var rest := JsArray.Splice(users, i);
        Exchange(rest, Response(Ok, UserList(rest)))
  }

  /** `after` is `before` with its first user of id `id` removed: the earlier
      users and the later users keep their order around the gap. */
  ghost predicate RemovedFirstWithId(before: seq<User>, after: seq<User>, id: Option<int>) {
    exists i ::
      && 0 <= i < |before|
      && HasId(before[i], id)
      && (forall j :: 0 <= j < i ==> !HasId(before[j], id))
      && after == before[..i] + before[i + 1..]
  }

  /** The whole route: the admin check, then the log line, then validation and the
      handler. A caller who is not an admin is turned away before anything
      else is looked at. */
  function DeleteRoute(users: seq<User>, req: Request, parseInt: string -> Option<int>,
                       isEmail: string -> bool): (x: Exchange)
    ensures x.response.status == Forbidden <==> !IsAdmin(users, parseInt(req.adminId))
    ensures !IsAdmin(users, parseInt(req.adminId)) ==>
              x == Exchange(users, Response(Forbidden, Text(ForbiddenMessage)))
    ensures IsAdmin(users, parseInt(req.adminId)) ==> x == Handle(users, req, parseInt, isEmail)
  {
    if !IsAdmin(users, parseInt(req.adminId)) then
      Exchange(users, Response(Forbidden, Text(ForbiddenMessage)))
    else
      Handle(users, req, parseInt, isEmail)
  }

  /** How many users carry the id. */
  function CountWithId(users: seq<User>, id: Option<int>): nat {
    if users == [] then 0
    else (if HasId(users[0], id) then 1 else 0) + CountWithId(users[1..], id)
  }

  lemma {:induction false} CountWithIdAppend(a: seq<User>, b: seq<User>, id: Option<int>)
    ensures CountWithId(a + b, id) == CountWithId(a, id) + CountWithId(b, id)
  {
    if a == [] {
      assert a + b == b;
    } else {
      assert (a + b)[1..] == a[1..] + b;
      CountWithIdAppend(a[1..], b, id);
    }
  }

  /** Removing the first user with an id removes exactly one user, one that
      carries that id, and keeps all the others. */
  lemma {:induction false} RemovalDropsOneMatch(before: seq<User>, after: seq<User>, id: Option<int>)
    requires RemovedFirstWithId(before, after, id)
    ensures |after| == |before| - 1
    ensures CountWithId(after, id) == CountWithId(before, id) - 1
    ensures exists u :: HasId(u, id) && multiset(after) + multiset{u} == multiset(before)
  {
    var i :| 0 <= i < |before| && HasId(before[i], id) && after == before[..i] + before[i + 1..];
    assert before == before[..i] + [before[i]] + before[i + 1..];
    CountWithIdAppend(before[..i] + [before[i]], before[i + 1..], id);
    CountWithIdAppend(before[..i], [before[i]], id);
    CountWithIdAppend(before[..i], before[i + 1..], id);
    assert CountWithId([before[i]], id) == 1 by {
      assert [before[i]][1..] == [];
    }
    assert after == JsArray.Splice(before, i);
    JsArray.SplicePermutation(before, i);
  }

  /** A successful delete through the whole route removes exactly one user
      with the requested id. */
  lemma SuccessfulDeleteRemovesOne(users: seq<User>, req: Request,
                                   parseInt: string -> Option<int>, isEmail: string -> bool)
    requires DeleteRoute(users, req, parseInt, isEmail).response.status == Ok
    ensures var x := DeleteRoute(users, req, parseInt, isEmail);
            var id := parseInt(req.userId.value);
            |x.users| == |users| - 1 && CountWithId(x.users, id) == CountWithId(users, id) - 1
  {
    var x := DeleteRoute(users, req, parseInt, isEmail);
    RemovalDropsOneMatch(users, x.users, parseInt(req.userId.value));
  }

  /** A caller who is not an admin gets 403 even when the body is invalid, and
      the list is unchanged. */
  lemma NonAdminIsForbiddenBeforeValidation(users: seq<User>, req: Request,
                                            parseInt: string -> Option<int>, isEmail: string -> bool)
    requires forall j :: 0 <= j < |users| ==> !IsAdminUser(users[j], parseInt(req.adminId))
    ensures DeleteRoute(users, req, parseInt, isEmail).response.status == Forbidden
    ensures DeleteRoute(users, req, parseInt, isEmail).users == users
  {
  }
}
