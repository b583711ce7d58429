/** The `verifyJWT` middleware: it takes the access token from the
    `accessToken` cookie or, failing that, from the `Authorization` header,
    verifies it, loads the user it names, and either attaches that user to the
    request and passes control on, or rejects the request with 401.

    The token library's `verify` and the user store's `findById` are
    parameters: the gate only reacts to what they return. */
module AuthGate {
  import opened Options
  import JsString

  type Id = string

  /** A stored user record, field name to value. */
  type Document = map<string, string>

  /** The scheme word the gate strips from the `Authorization` header. */
  const BearerScheme: string := "Bearer "

  /** The only status a rejection carries. */
  const Unauthorized: nat := 401

  /** The fields the store query excludes from the record it returns. */
  const SecretFields: set<string> := {"password", "refreshToken"}

  const NoTokenMessage: string := "Unauthorized request"
  const NoUserMessage: string := "Invalid Access Token"
  const DefaultMessage: string := "Invalid access token"

  /** What the gate reads from and writes to a request: the `accessToken`
      cookie, the `Authorization` header, and the `user` slot. */
  datatype Request = Request(
    accessToken: Option<string>,
    authorization: Option<string>,
    user: Option<Document>)

  /** The decoded payload of a verified token; `_id` may be absent. */
  datatype Claims = Claims(subject: Option<Id>)

  /** What `jwt.verify` does: return the payload, or throw with a message. */
  datatype Verification = Verified(claims: Claims) | VerifyThrew(message: string)

  /** What `User.findById` resolves to: a record, `null`, or a rejection. */
  datatype Lookup = Found(record: Document) | NotFound | LookupThrew(message: string)

  /** The body of the `try` block: it finishes with the updated request or
      throws with a message. A thrown value without a message (a non-Error,
      say) is written with the empty message, as is an empty one. */
  datatype Attempt = Completed(req: Request) | Threw(message: string)

  /** What the gate does with the request: call `next` with `req` (whose
      `user` slot is set), or reject. */
  datatype Outcome = Forward(req: Request) | Reject(status: nat, message: string)

  /** The record with the secret fields left out, as the store returns it
      when asked to exclude the password and the stored refresh token. */
  function Project(doc: Document): (view: Document)
    ensures view.Keys == doc.Keys - SecretFields
    ensures forall k :: k in view ==> view[k] == doc[k]
  {
    doc - SecretFields
  }

  /** The token is the cookie when it is non-empty; otherwise it is the
      header with its first `Bearer ` removed, or nothing when there is no
      header. The middleware tries the cookie, then the header, with a logical
      or; an empty cookie counts as false there and falls through. */
  function ExtractToken(req: Request): (token: Option<string>)
    ensures req.accessToken.Some? && req.accessToken.value != "" ==> token == req.accessToken
    ensures (req.accessToken.None? || req.accessToken.value == "") ==>
              (token.Some? <==> req.authorization.Some?)
    ensures (req.accessToken.None? || req.accessToken.value == "") && req.authorization.Some? ==>
              token.value == JsString.RemoveFirst(req.authorization.value, BearerScheme)
  {
    if req.accessToken.Some? && req.accessToken.value != "" then req.accessToken
    else match req.authorization
      case None => None
      case Some(h) => Some(JsString.RemoveFirst(h, BearerScheme))
  }

  /** The token the gate goes on with: present and non-empty (`!token` rejects
      both `undefined` and `""`). */
  predicate UsableToken(token: Option<string>) {
    token.Some? && token.value != ""
  }

  /** The guarded part of the gate: extraction, verification, lookup and
      attaching the user. Every early exit throws. */
  function TryBlock(req: Request, verify: string -> Verification, findById: Option<Id> -> Lookup): Attempt
  {
    var token := ExtractToken(req);
    if !UsableToken(token) then Threw(NoTokenMessage)
    else match verify(token.value)
      case VerifyThrew(m) => Threw(m)
      case Verified(claims) =>
        match findById(claims.subject)
        case LookupThrew(m) => Threw(m)
        case NotFound => Threw(NoUserMessage)
        case Found(doc) => Completed(req.(user := Some(Project(doc))))
  }

  /** The message of the error the handler rethrows: the caught message,
      or a fixed default when that message is empty. */
  function RethrownMessage(m: string): (r: string)
    ensures r != ""
    ensures m != "" ==> r == m
    ensures m == "" ==> r == DefaultMessage
  {
    if m != "" then m else DefaultMessage
  }

  /** The whole gate, the `catch` included. */
  function VerifyJwt(req: Request, verify: string -> Verification, findById: Option<Id> -> Lookup): (r: Outcome)
    ensures r.Forward? <==> Authenticated(req, verify, findById)
    ensures r.Forward? ==>
              var token := ExtractToken(req).value;
              var doc := findById(verify(token).claims.subject).record;
              r.req == req.(user := Some(Project(doc)))
    ensures r.Forward? ==> r.req.user.Some? && r.req.user.value.Keys !! SecretFields
    ensures r.Reject? ==> r.status == Unauthorized && r.message != ""
    ensures !UsableToken(ExtractToken(req)) ==> r == Reject(Unauthorized, NoTokenMessage)
  {
    match TryBlock(req, verify, findById)
    case Completed(req') => Forward(req')
    case Threw(m) => Reject(Unauthorized, RethrownMessage(m))
  }

  /** The gate's promise, stated step by step: a usable token that verifies
      and names a user who is found. */
  ghost predicate Authenticated(req: Request, verify: string -> Verification, findById: Option<Id> -> Lookup) {
    exists token: string ::
      && ExtractToken(req) == Some(token)
      && token != ""
      && verify(token).Verified?
      && findById(verify(token).claims.subject).Found?
  }

  /** A non-empty cookie decides everything: the `Authorization` header has no
      effect on the outcome. */
  lemma CookieTakesPrecedence(req: Request, header: Option<string>,
                              verify: string -> Verification, findById: Option<Id> -> Lookup)
    requires req.accessToken.Some? && req.accessToken.value != ""
    ensures VerifyJwt(req.(authorization := header), verify, findById).Reject? ==>
              VerifyJwt(req.(authorization := header), verify, findById) == VerifyJwt(req, verify, findById)
    ensures VerifyJwt(req.(authorization := header), verify, findById).Forward? ==>
              VerifyJwt(req, verify, findById).Forward? &&
              VerifyJwt(req.(authorization := header), verify, findById).req.user == VerifyJwt(req, verify, findById).req.user
  {
  }

  /** With no cookie (or an empty one) and a header `Bearer <t>`, the token is `t`. */
  lemma BearerHeaderYieldsToken(req: Request, t: string)
    requires req.accessToken.None? || req.accessToken.value == ""
    requires req.authorization == Some(BearerScheme + t)
    ensures ExtractToken(req) == Some(t)
  {
  }

  /** The header is matched case-sensitively and anywhere in the value: a
      lower-case scheme is passed through whole, and a `"Bearer "` in the
      middle is cut out of the middle. */
  lemma ExtractionIsNotStrictBearerParsing()
    ensures ExtractToken(Request(None, Some("bearer abc"), None)) == Some("bearer abc")
    ensures ExtractToken(Request(Some(""), Some("xBearer abc"), None)) == Some("xabc")
  {
    var lower := "bearer abc";
    forall i: nat | i + |BearerScheme| <= |lower|
      ensures !JsString.OccursAt(lower, BearerScheme, i)
    {
      assert lower[i..i + |BearerScheme|][0] == lower[i] != 'B';
    }
    var mid := "xBearer abc";
    assert !JsString.OccursAt(mid, BearerScheme, 0) by { assert mid[0] != 'B'; }
    assert JsString.OccursAt(mid, BearerScheme, 1);
    assert JsString.IndexOf(mid, BearerScheme) == Some(1);
    assert mid[..1] + mid[8..] == "xabc";
  }

  /** A header that is exactly the scheme word gives an empty token, which is
      rejected like a missing one, whatever `verify` and `findById` would say. */
  lemma BareSchemeIsRejected(req: Request, verify: string -> Verification, findById: Option<Id> -> Lookup)
    requires req.accessToken.None? || req.accessToken.value == ""
    requires req.authorization == Some(BearerScheme)
    ensures VerifyJwt(req, verify, findById) == Reject(Unauthorized, NoTokenMessage)
  {
  }

  /** A failed verification is reported with the library's own message. */
  lemma VerifyFailureIsRejected(req: Request, verify: string -> Verification, findById: Option<Id> -> Lookup)
    requires UsableToken(ExtractToken(req))
    requires verify(ExtractToken(req).value).VerifyThrew?
    ensures VerifyJwt(req, verify, findById) ==
              Reject(Unauthorized, RethrownMessage(verify(ExtractToken(req).value).message))
  {
  }

  /** A store failure is reported with the store's own message, like a
      failed verification. */
  lemma LookupFailureIsRejected(req: Request, verify: string -> Verification, findById: Option<Id> -> Lookup)
    requires UsableToken(ExtractToken(req))
    requires verify(ExtractToken(req).value).Verified?
    requires findById(verify(ExtractToken(req).value).claims.subject).LookupThrew?
    ensures VerifyJwt(req, verify, findById) ==
              Reject(Unauthorized, RethrownMessage(findById(verify(ExtractToken(req).value).claims.subject).message))
  {
  }

  /** A verified token whose subject is not in the store is rejected with
      "Invalid Access Token". */
  lemma UnknownSubjectIsRejected(req: Request, verify: string -> Verification, findById: Option<Id> -> Lookup)
    requires UsableToken(ExtractToken(req))
    requires verify(ExtractToken(req).value).Verified?
    requires findById(verify(ExtractToken(req).value).claims.subject).NotFound?
    ensures VerifyJwt(req, verify, findById) == Reject(Unauthorized, NoUserMessage)
  {
  }
}
