/** The REST example's user routes over one in-memory array: list, append,
    and read, replace or remove by array position.

    Assigning past the end of a JavaScript array leaves holes, so the array is
    a sequence of slots and a hole is `None`. Reading a hole or a position
    past the end both give `undefined`, written `None`. */
module UsersApi {
  import opened Options
  import JsArray

  type Slots<T> = seq<Option<T>>

  datatype Route<T> =
    | ListUsers                        // GET /api/users
    | CreateUser(body: T)              // POST /api/users
    | GetUser(id: nat)                 // GET /api/users/:id
    | PatchUser(id: nat, body: T)      // PATCH /api/users/:id
    | DeleteUser(id: nat)              // DELETE /api/users/:id

  /** What `res.send` is given: the whole array, or one value (maybe `undefined`). */
  datatype Reply<T> = SendList(users: Slots<T>) | SendOne(user: Option<T>)

  datatype Exchange<T> = Exchange(users: Slots<T>, reply: Reply<T>)

  /** Reading the array at position `id`. */
  function Get<T>(users: Slots<T>, id: nat): (r: Option<T>)
    ensures r.Some? ==> id < |users| && users[id] == r
    ensures id < |users| && users[id].Some? ==> r == users[id]
  {
    if id < |users| then users[id] else None
  }

  /** Appending the body at the end of the array (JavaScript's `push`). */
  function Create<T>(users: Slots<T>, body: T): (r: Slots<T>)
    ensures |r| == |users| + 1
    ensures r[..|users|] == users
    ensures Get(r, |users|) == Some(body)
  {
    users + [Some(body)]
  }

  /** Assigning the body to position `id`: the slot at `id` is replaced;
      past the end, the array grows to `id + 1` with holes in between. */
  function Patch<T>(users: Slots<T>, id: nat, body: T): (r: Slots<T>)
    ensures |r| == if id < |users| then |users| else id + 1
    ensures Get(r, id) == Some(body)
    ensures forall j :: 0 <= j < |r| && j != id ==> r[j] == if j < |users| then users[j] else None
  {
    if id < |users| then users[id := Some(body)]
    else users + seq(id - |users|, _ => None) + [Some(body)]
  }

  /** Removing the element at position `id` with `splice`, deleting one element. */
  function Delete<T>(users: Slots<T>, id: nat): (r: Slots<T>)
    ensures id < |users| ==> |r| == |users| - 1
    ensures id >= |users| ==> r == users
    ensures forall j :: 0 <= j < |r| ==> r[j] == if j < id then users[j] else users[j + 1]
  {
    JsArray.Splice(users, id)
  }

  /** One request against the array: the list route, the append route, and
      the read, replace and remove routes on one position. */
  function Serve<T>(users: Slots<T>, route: Route<T>): (x: Exchange<T>)
    ensures route.ListUsers? || route.GetUser? ==> x.users == users
    ensures route.ListUsers? ==> x.reply == SendList(users)
    ensures route.GetUser? ==> x.reply == SendOne(Get(users, route.id))
    ensures route.CreateUser? || route.PatchUser? ==> x.reply == SendOne(Some(route.body))
    ensures route.CreateUser? ==> x.users == Create(users, route.body)
    ensures route.PatchUser? ==> x.users == Patch(users, route.id, route.body)
    ensures route.DeleteUser? ==> x.users == Delete(users, route.id) && x.reply == SendList(x.users)
    ensures route.CreateUser? ==> |x.users| == |users| + 1 && Get(x.users, |users|) == Some(route.body)
    ensures route.PatchUser? ==> Get(x.users, route.id) == Some(route.body)
    ensures route.DeleteUser? && route.id < |users| ==> |x.users| == |users| - 1
    ensures route.DeleteUser? && route.id >= |users| ==> x.users == users
  {
    match route
    case ListUsers => Exchange(users, SendList(users))
    case CreateUser(body) => Exchange(Create(users, body), SendOne(Some(body)))
    case GetUser(id) => Exchange(users, SendOne(Get(users, id)))
    case PatchUser(id, body) => Exchange(Patch(users, id, body), SendOne(Some(body)))
    case DeleteUser(id) => var rest := Delete(users, id); Exchange(rest, SendList(rest))
  }

  /** After a patch, every other position reads as before. */
  lemma PatchLeavesOthers<T>(users: Slots<T>, id: nat, body: T, j: nat)
    requires j != id
    ensures Get(Patch(users, id, body), j) == Get(users, j)
  {
  }

  /** Patching a position twice with the same body is patching it once. */
  lemma PatchIdempotent<T>(users: Slots<T>, id: nat, body: T)
    ensures Patch(Patch(users, id, body), id, body) == Patch(users, id, body)
  {
  }

  /** Patching an occupied position with what it already holds changes nothing. */
  lemma PatchWithCurrentValue<T>(users: Slots<T>, id: nat)
    requires id < |users| && users[id].Some?
    ensures Patch(users, id, users[id].value) == users
  {
  }

  /** Deleting what was just appended gives the array back. */
  lemma DeleteUndoesCreate<T>(users: Slots<T>, body: T)
    ensures Delete(Create(users, body), |users|) == users
  {
  }

  /** After a delete at `id`, position `j` reads what position `j` (before
      `id`) or `j + 1` (from `id` on) read before. */
  lemma DeleteShiftsLeft<T>(users: Slots<T>, id: nat, j: nat)
    requires id < |users|
    ensures Get(Delete(users, id), j) == Get(users, if j < id then j else j + 1)
  {
  }

  /** Reading and listing never change the array. */
  lemma ReadsAreIdempotent<T>(users: Slots<T>, route: Route<T>)
    requires route.ListUsers? || route.GetUser?
    ensures Serve(Serve(users, route).users, route) == Serve(users, route)
  {
  }
}
