# Request-handling logic of the Node.js tutorial servers, in Dafny

This project models the decision logic of three Express handlers as pure
functions. Express, the JWT library and the user store are left out.

- **Access-token gate** (`verifyJWT`, module `AuthGate`). It reads the token
  from the `accessToken` cookie. If the cookie is absent or empty, it reads the
  `Authorization` header with its first `"Bearer "` removed. It then verifies
  the token and looks up the user it names. On success it attaches the user,
  minus `password` and `refreshToken`, to the request and forwards it.
  Otherwise it rejects with 401. `jwt.verify` and `User.findById` are function
  parameters (`verify`, `findById`). A throw from either one is a value
  (`VerifyThrew`, `LookupThrew`) carrying its message.
- **Admin-guarded delete** (module `AdminDelete`). The `isAdmin` guard runs
  first after the JSON body parser (403). Then come the body validators (400),
  the `userId` query check (400) and the lookup (404). Only then is the first user with the requested
  id spliced out of the list. `parseInt` and `isEmail` are parameters. NaN is
  `None`, and it matches no id.
- **Positional user CRUD** (module `UsersApi`). The routes list, append, and
  read, replace or remove users by array position. Writing past the end of a
  JavaScript array leaves holes, so the array is modelled as
  `seq<Option<T>>`, where a hole is `None`.

Two small modules give JavaScript's built-ins as the handlers use them:

- `JsString`: `indexOf`, and `replace` with a string pattern and an empty
  replacement.
- `JsArray`: `findIndex`, and `splice(start, 1)`.

The REST example installs no body-parsing middleware. As written, its
`req.body` is therefore `undefined`. The model takes the body as the handler
receives it, so it covers that case as well.

## Model

| member | source | states |
|---|---|---|
| JsString.IndexOf | 12Authentication/code/auth.middleware.js:10 | The result is the first position where the pattern occurs. It is `None` exactly when the pattern occurs nowhere. This is the search that `replace` does. |
| JsString.RemoveFirst | 12Authentication/code/auth.middleware.js:10 | If the pattern is absent, the string comes back whole. Otherwise the result is one pattern-length shorter. Putting the pattern back at its first occurrence gives back the original string. |
| JsString.RemoveFirstChangesIff | 12Authentication/code/auth.middleware.js:10 | `replace(p, "")` changes the string if and only if `p` is non-empty and occurs in it. |
| JsString.RemoveFirstOfPrefixed | 12Authentication/code/auth.middleware.js:10 | A string that starts with `p` loses exactly that leading `p`. |
| AuthGate.Project | 12Authentication/code/auth.middleware.js:19 | The projected record has exactly the stored keys minus `password` and `refreshToken`. Every kept field keeps its value. |
| AuthGate.ExtractToken | 12Authentication/code/auth.middleware.js:10 | A non-empty cookie is the token. An absent or empty cookie falls through to the header. A token exists then exactly when the header does, and it is the header with its first `"Bearer "` removed. |
| AuthGate.RethrownMessage | 12Authentication/code/auth.middleware.js:28-29 | The rethrown message is never empty. It is the caught message whenever that message is non-empty, and "Invalid access token" when it is empty. |
| AuthGate.VerifyJwt | 12Authentication/code/auth.middleware.js:8-32 | The gate forwards if and only if there is a non-empty token, it verifies, and its subject is found. The forwarded request is the input with `user` set to the projected record, which holds no secret field. Every rejection is 401 with a non-empty message. A missing or empty token is rejected with "Unauthorized request" before `verify` is consulted. |
| AuthGate.CookieTakesPrecedence | 12Authentication/code/auth.middleware.js:10 | With a non-empty cookie, changing the `Authorization` header does not change whether the gate forwards. It also leaves the rejection and the attached user unchanged. |
| AuthGate.BearerHeaderYieldsToken | 12Authentication/code/auth.middleware.js:10 | With no usable cookie, a header `Bearer <t>` yields the token `t`. |
| AuthGate.ExtractionIsNotStrictBearerParsing | 12Authentication/code/auth.middleware.js:10 | The scheme match is case-sensitive: `bearer abc` passes through whole. It also matches anywhere in the header: `xBearer abc` gives `xabc`. |
| AuthGate.BareSchemeIsRejected | 12Authentication/code/auth.middleware.js:10-15 | A header that is just `"Bearer "` gives an empty token. That token is rejected as missing, whatever `verify` and `findById` would return. |
| AuthGate.VerifyFailureIsRejected | 12Authentication/code/auth.middleware.js:17 | A token that fails verification is rejected with 401. The rejection carries the library's message, or the default when that message is empty. |
| AuthGate.LookupFailureIsRejected | 12Authentication/code/auth.middleware.js:19 | A store query that throws for a verified token is rejected with 401. The rejection carries the store's message, or the default when that message is empty. |
| AuthGate.UnknownSubjectIsRejected | 12Authentication/code/auth.middleware.js:19-24 | A verified token whose subject is not in the store is rejected with 401 and "Invalid Access Token". |
| JsArray.FindIndex | 09middlewares/middleware.js:49 | The result is the first index whose element satisfies the predicate. It is `None` exactly when no element does. |
| JsArray.Splice | 08RESTApi/8.2RESTApiInExpress.js:68 | When `start` is in range, the array shrinks by one: earlier elements stay where they are and later ones move left by one. A `start` past the end leaves the array unchanged. |
| JsArray.SplicePermutation | 09middlewares/middleware.js:57 | The spliced-out element plus what remains is the original multiset. |
| JsArray.SpliceReinsert | 09middlewares/middleware.js:57 | Putting the removed element back at its position restores the array. |
| AdminDelete.IsAdmin | 09middlewares/middleware.js:12-19 | The caller is an admin if and only if some user has the parsed admin id and the role `admin`. |
| AdminDelete.Validate | 09middlewares/middleware.js:28-32 | For string-valued (or missing) fields: there are no errors if and only if both names have length 3 to 20 and the e-mail is valid. Each field's error is reported exactly when its check fails. No other error appears. There are at most three errors, each reported once, in the order the checks are declared. |
| AdminDelete.Handle | 09middlewares/middleware.js:36-58 | Validation errors give 400 with those errors. Every non-200 answer leaves the list unchanged. A valid body with a non-empty `userId` that some user carries is answered 200. A missing or empty `userId` after a valid body is answered 400 with "User ID to delete is required". The answer is 404, with "User not found", if and only if the body is valid, `userId` is non-empty, and no user has that id. A 200 answer removes the first user with that id, keeps the others in order, and sends the new list. |
| AdminDelete.DeleteRoute | 09middlewares/middleware.js:35 | For a body that parsed, the answer is 403 if and only if the caller is not an admin. A 403 leaves the list unchanged, even when the body is invalid. For an admin, the handler decides. |
| AdminDelete.RemovalDropsOneMatch | 09middlewares/middleware.js:49-57 | Removing the first user with an id makes the list one shorter, with one user fewer carrying that id. What remains plus one user with that id is the original multiset. |
| AdminDelete.SuccessfulDeleteRemovesOne | 09middlewares/middleware.js:49-58 | After a 200 answer from the route, the list is one shorter, with one user fewer carrying the requested id. |
| AdminDelete.NonAdminIsForbiddenBeforeValidation | 09middlewares/middleware.js:12-19 | If no user is an admin with the given id, the route answers 403 and the list is unchanged. |
| UsersApi.Get | 08RESTApi/8.2RESTApiInExpress.js:55-59 | A value comes back only for an occupied position in range, and it is the value stored there. A hole or a position past the end gives `undefined`. |
| UsersApi.Create | 08RESTApi/8.2RESTApiInExpress.js:32-36 | The array grows by one. Every earlier slot is unchanged, and the body is readable at the old length. |
| UsersApi.Patch | 08RESTApi/8.2RESTApiInExpress.js:60-65 | The body is readable at `id` afterwards. Every other position is unchanged. Past the end, the array grows to `id + 1` and the new positions in between are holes. |
| UsersApi.Delete | 08RESTApi/8.2RESTApiInExpress.js:66-70 | In range, the array is one shorter, with later slots shifted left in order. Past the end, it is unchanged. |
| UsersApi.Serve | 08RESTApi/8.2RESTApiInExpress.js:19-70 | GET routes leave the array unchanged. GET list sends the array, and GET by id sends the element. POST and PATCH send the body. DELETE sends the remaining array. After POST the array is one longer and the body sits at the old length. After PATCH the body is readable at `id`. DELETE in range makes the array one shorter, and DELETE past the end leaves it unchanged. |
| UsersApi.PatchLeavesOthers | 08RESTApi/8.2RESTApiInExpress.js:63 | A patch at `id` leaves every other position reading as before. |
| UsersApi.PatchIdempotent | 08RESTApi/8.2RESTApiInExpress.js:63 | Patching a position twice with the same body is the same as patching it once. |
| UsersApi.PatchWithCurrentValue | 08RESTApi/8.2RESTApiInExpress.js:63 | Patching an occupied position with its current value changes nothing. |
| UsersApi.DeleteUndoesCreate | 08RESTApi/8.2RESTApiInExpress.js:32-36 | Deleting the position that was just appended gives back the original array. |
| UsersApi.DeleteShiftsLeft | 08RESTApi/8.2RESTApiInExpress.js:68 | After a delete at `id`, position `j` reads what position `j` read before when `j < id`, and what position `j + 1` read before otherwise. |
| UsersApi.ReadsAreIdempotent | 08RESTApi/8.2RESTApiInExpress.js:19-21 | Repeating a GET gives the same array and the same reply. |

## Left out

- Token verification itself (signature, expiry, the secret read from the
  environment) happens inside the JWT library. It is the `verify` parameter.
- The user store's query, including the `"-password -refreshToken"` selection
  string, is Mongoose I/O. It is the `findById` parameter plus `Project`.
  Asynchronous suspension and cancellation are not modelled.
- The internals of `asyncHandler` and `ApiError` are not part of this model.
  A rejection is `Reject(status, message)`.
- An exception thrown by `next()` itself, which the same `catch` would also
  rewrap, is not modelled: it belongs to downstream handlers.
- `parseInt` and express-validator's `isEmail` are parameters.
- AdminDelete.Validate: an error is its field and message only. The `value`
  and `location` that each error object also carries are not modelled.
- AdminDelete.DeleteRoute: the JSON body parser is registered before the
  route, so it runs before the admin check. A body it cannot parse (malformed
  JSON, a top-level primitive, too large, an unsupported charset) is answered
  400, 413 or 415 by Express before `isAdmin` runs, so the caller gets no 403.
  These parser failures are not modelled: `Body` is the body after parsing.
- AdminDelete.Validate: body fields are modelled as strings or missing. The
  JSON body parser can deliver arrays, objects, numbers or booleans, and the
  validator library checks an array field item by item. Such values are not
  modelled, so the "at most three errors" promise holds only for string fields.
- AdminDelete.Handle: the `userId` query is modelled as a string or missing.
  The query parser can deliver an array (`?userId[]=` gives `['']`, which is
  truthy and reaches the lookup, where it matches nobody: 404). Array and
  object query values are not modelled.
- AdminDelete.Validate checks only the body. express-validator's `check()`
  also looks at cookies, headers, params and query.
- AdminDelete.Validate measures length in code points. It ignores the
  validator library's special counting of variation-selector sequences.
- The `logRequest` middleware only writes to the console. It is the identity
  step between the admin check and validation.
- `app.listen`, the JSON data imports and the constant-response routes are
  plumbing and are not modelled.
- In the REST example, ids are array positions given as natural numbers.
  Negative, non-canonical or non-numeric `:id` strings are not modelled:
  `splice("-1", 1)` removes the last element, and `users["03"]` is a property,
  not a position.
- UsersApi.Patch: JavaScript array positions stop at 2^32 - 2. Assigning to
  a larger id creates a plain property, not an element: the length stays the
  same and the property is not listed. The model instead grows the array to
  `id + 1`, so it matches the source only for ids below 4294967295.
- UsersApi.Create: appending to an array that already holds 2^32 - 1
  elements throws a range error in JavaScript. The model has no length
  limit.
- The filesystem, module and callback examples, and the Mongoose connection
  and schema files, are unrelated to these handlers.
