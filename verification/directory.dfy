/** The user-directory handlers — own profile, listing, lookup by id and
    update — and the routes that put them behind the request filters. */
module Directory {
  import opened Outcomes
  import opened Crypto
  import opened Schema
  import Middleware

  const UserNotFound := "User tidak ditemukan"
  const NotOwner := "Anda tidak memiliki akses untuk mengubah data user ini"
  const NothingToUpdate := "Tidak ada data yang diupdate"
  const UpdateDone := "Data user berhasil diupdate"

  // ---------------------------------------------------------------------------
  // Profile and lookup by id

  /** `GET /api/profile` handler: the row of the principal's id claim. */
  function Profile(rows: map<int, User>, principal: Payload): (r: Reply<UserView>)
    ensures r.Ok? <==> principal.claims.id in rows
    ensures r.Ok? ==> r.payload == View(principal.claims.id, rows[principal.claims.id])
    ensures r.Reject? ==> r == Reject(NotFound, UserNotFound)
  {
    if principal.claims.id in rows then Ok(View(principal.claims.id, rows[principal.claims.id]))
    else Reject(NotFound, UserNotFound)
  }

  /** `GET /api/users/:id` handler; `id` is the integer the path segment
      denotes. */
  function GetUser(rows: map<int, User>, id: int): (r: Reply<UserView>)
    ensures r.Ok? <==> id in rows
    ensures r.Ok? ==> r.payload == View(id, rows[id])
    ensures r.Reject? ==> r == Reject(NotFound, UserNotFound)
  {
    if id in rows then Ok(View(id, rows[id])) else Reject(NotFound, UserNotFound)
  }

  /** `GET /api/profile` behind `verifyToken`. */
  function ProfileRoute(codec: TokenCodec, header: Option<string>, now: int, rows: map<int, User>): (r: Reply<UserView>)
    ensures Middleware.VerifyToken(codec, header, now).Reject? ==>
              r == Reject(Middleware.VerifyToken(codec, header, now).status,
                          Middleware.VerifyToken(codec, header, now).message)
    ensures Middleware.VerifyToken(codec, header, now).Ok? ==>
              r == Profile(rows, Middleware.VerifyToken(codec, header, now).payload)
  {
    match Middleware.VerifyToken(codec, header, now)
    case Reject(status, message) => Reject(status, message)
    case Ok(principal) => Profile(rows, principal)
  }

  /** `GET /api/users/:id` behind `verifyToken` and `verifyAdmin`. */
  function GetUserRoute(codec: TokenCodec, header: Option<string>, now: int, rows: map<int, User>, id: int)
    : (r: Reply<UserView>)
    ensures Middleware.AdminGate(codec, header, now).Reject? ==>
              r == Reject(Middleware.AdminGate(codec, header, now).status,
                          Middleware.AdminGate(codec, header, now).message)
    ensures Middleware.AdminGate(codec, header, now).Ok? ==> r == GetUser(rows, id)
  {
    match Middleware.AdminGate(codec, header, now)
    case Reject(status, message) => Reject(status, message)
    case Ok(_) => GetUser(rows, id)
  }

  /** The gate decides alone: a rejected request gets the same reply
      whatever the store holds, and a courier's token never reaches the
      lookup. */
  lemma GetUserRouteGated(codec: TokenCodec, header: Option<string>, now: int,
                          rows1: map<int, User>, rows2: map<int, User>, id: int)
    requires Middleware.AdminGate(codec, header, now).Reject?
    ensures GetUserRoute(codec, header, now, rows1, id) == GetUserRoute(codec, header, now, rows2, id)
    ensures Middleware.VerifyToken(codec, header, now).Ok? ==>
              GetUserRoute(codec, header, now, rows1, id) == Reject(Forbidden, Middleware.AdminOnly)
  {
  }

  // ---------------------------------------------------------------------------
  // Listing

  /** A row the listing selects: every row without a role filter, otherwise
      those whose role is the filter text. */
  predicate Selected(u: User, roleFilter: Option<string>)
  {
    !Supplied(roleFilter) || u.role == roleFilter.value
  }

  function SelectedIds(rows: map<int, User>, roleFilter: Option<string>): set<int>
  {
    set id | id in rows && Selected(rows[id], roleFilter)
  }

  /** `data` is ordered by `created_at`, newest first. */
  predicate NewestFirst(data: seq<UserView>)
  {
    forall i, j :: 0 <= i < j < |data| ==> data[i].createdAt >= data[j].createdAt
  }

  /** The ids listed in `data`. */
  function ListedIds(data: seq<UserView>): set<int>
  {
    set i | 0 <= i < |data| :: data[i].id
  }

  /** Every entry of `data` is the view of the stored row with its id, and
      no id is listed twice. */
  predicate ViewsOf(rows: map<int, User>, data: seq<UserView>)
  {
    && (forall i :: 0 <= i < |data| ==> data[i].id in rows && data[i] == View(data[i].id, rows[data[i].id]))
    && (forall i, j :: 0 <= i < j < |data| ==> data[i].id != data[j].id)
  }

  /** The `{data, total}` payload of `GET /api/users`. */
  datatype UserList = UserList(data: seq<UserView>, total: int)

  /** Among a non-empty set of stored ids, one is created no earlier than
      any other. */
  lemma {:induction false} NewestExists(rows: map<int, User>, ids: set<int>)
    requires ids != {} && ids <= rows.Keys
    ensures exists id :: id in ids && forall other :: other in ids ==> rows[other].createdAt <= rows[id].createdAt
    decreases |ids|
  {
    if forall y :: y !in ids {
      assert false;
    }
    var x :| x in ids;
    if ids != {x} {
      var rest := ids - {x};
      NewestExists(rows, rest);
      var y :| y in rest && forall other :: other in rest ==> rows[other].createdAt <= rows[y].createdAt;
      if rows[x].createdAt <= rows[y].createdAt {
        assert forall other :: other in ids ==> rows[other].createdAt <= rows[y].createdAt;
      } else {
        assert forall other :: other in ids ==> rows[other].createdAt <= rows[x].createdAt;
      }
    }
  }

  /** `GET /api/users` handler: the selected rows, newest first, with their
      count. Rows created in the same second may come in any order. */
  method ListUsers(rows: map<int, User>, roleFilter: Option<string>) returns (list: UserList)
    ensures ViewsOf(rows, list.data)
    ensures ListedIds(list.data) == SelectedIds(rows, roleFilter)
    ensures NewestFirst(list.data)
    ensures list.total == |list.data|
  {
    var pending := SelectedIds(rows, roleFilter);
    var data: seq<UserView> := [];
    while pending != {}
      invariant pending <= SelectedIds(rows, roleFilter)
      invariant ViewsOf(rows, data)
      invariant ListedIds(data) !! pending
      invariant ListedIds(data) + pending == SelectedIds(rows, roleFilter)
      invariant NewestFirst(data)
      invariant forall i, id :: 0 <= i < |data| && id in pending ==> data[i].createdAt >= rows[id].createdAt
      decreases pending
    {
      NewestExists(rows, pending);
      var id :| id in pending && forall other :: other in pending ==> rows[other].createdAt <= rows[id].createdAt;
      var entry := View(id, rows[id]);
      assert ListedIds(data + [entry]) == ListedIds(data) + {id} by {
        assert forall i :: 0 <= i < |data| ==> (data + [entry])[i] == data[i];
        assert (data + [entry])[|data|] == entry;
      }
      data := data + [entry];
      pending := pending - {id};
    }
    list := UserList(data, |data|);
  }

  /** `GET /api/users?role=` behind `verifyToken` and `verifyAdmin`. */
  method ListUsersRoute(codec: TokenCodec, header: Option<string>, now: int, rows: map<int, User>,
                        roleFilter: Option<string>) returns (r: Reply<UserList>)
    ensures Middleware.AdminGate(codec, header, now).Reject? ==>
              r == Reject(Middleware.AdminGate(codec, header, now).status,
                          Middleware.AdminGate(codec, header, now).message)
    ensures Middleware.AdminGate(codec, header, now).Ok? ==>
              && r.Ok?
              && ViewsOf(rows, r.payload.data)
              && ListedIds(r.payload.data) == SelectedIds(rows, roleFilter)
              && NewestFirst(r.payload.data)
              && r.payload.total == |r.payload.data|
  {
    match Middleware.AdminGate(codec, header, now)
    case Reject(status, message) =>
      r := Reject(status, message);
    case Ok(_) =>
      var list := ListUsers(rows, roleFilter);
      r := Ok(list);
  }

  /** With a role filter, every listed user has that role, and every user
      with that role is listed. */
  lemma FilterSelectsRole(rows: map<int, User>, role: string, data: seq<UserView>)
    requires role != ""
    requires ViewsOf(rows, data)
    requires ListedIds(data) == SelectedIds(rows, Some(role))
    ensures forall i :: 0 <= i < |data| ==> data[i].role == role
    ensures forall id :: id in rows && rows[id].role == role ==> exists i :: 0 <= i < |data| && data[i].id == id
  {
    forall i | 0 <= i < |data|
      ensures data[i].role == role
    {
      assert data[i].id in ListedIds(data);
    }
    forall id | id in rows && rows[id].role == role
      ensures exists i :: 0 <= i < |data| && data[i].id == id
    {
      assert id in SelectedIds(rows, Some(role));
    }
  }

  // ---------------------------------------------------------------------------
  // Update

  /** The JSON body of `PUT /api/users/:id`. */
  datatype UpdateBody = UpdateBody(
    namaLengkap: Option<string>,
    email: Option<string>,
    telepon: Option<string>,
    password: Option<string>)

  /** At least one field of the body is truthy. */
  predicate HasChanges(body: UpdateBody)
  {
    Supplied(body.namaLengkap) || Supplied(body.email) || Supplied(body.telepon) || Supplied(body.password)
  }

  /** The admin-or-self test; `id` is the integer the path segment coerces
      to under `!=`. */
  predicate MayUpdate(principal: Claims, id: int)
  {
    principal.role == Admin || principal.id == id
  }

  /** The row after the UPDATE: truthy fields replace the stored ones (a
      password is stored as its digest), `updated_at` becomes `now`, and
      nothing else changes. */
  function Patch(u: User, body: UpdateBody, h: Hasher, salt: Salt, now: int): (v: User)
    ensures v.namaLengkap == (if Supplied(body.namaLengkap) then body.namaLengkap.value else u.namaLengkap)
    ensures Supplied(body.email) ==> v.email == body.email
    ensures !Supplied(body.email) ==> v.email == u.email
    ensures Supplied(body.telepon) ==> v.telepon == body.telepon
    ensures !Supplied(body.telepon) ==> v.telepon == u.telepon
    ensures Supplied(body.password) ==> v.password == h.hash(body.password.value, salt)
    ensures !Supplied(body.password) ==> v.password == u.password
    ensures v.updatedAt == now
    ensures v == u.(namaLengkap := v.namaLengkap, email := v.email, telepon := v.telepon,
                    password := v.password, updatedAt := now)
  {
    u.(namaLengkap := if Supplied(body.namaLengkap) then body.namaLengkap.value else u.namaLengkap,
       email := if Supplied(body.email) then body.email else u.email,
       telepon := if Supplied(body.telepon) then body.telepon else u.telepon,
       password := if Supplied(body.password) then h.hash(body.password.value, salt) else u.password,
       updatedAt := now)
  }

  /** The reply of an update and the rows afterwards. */
  datatype Change = Change(reply: Reply<string>, rows: map<int, User>)

  /** `PUT /api/users/:id` handler for the authenticated `principal`, at time
      `now`, hashing a new password with `salt`. An id with no row is
      answered like a success and changes nothing. */
  function UpdateUser(rows: map<int, User>, principal: Claims, id: int, body: UpdateBody,
                      h: Hasher, salt: Salt, now: int): (r: Change)
    ensures !MayUpdate(principal, id) ==> r == Change(Reject(Forbidden, NotOwner), rows)
    ensures MayUpdate(principal, id) && !HasChanges(body) ==> r == Change(Reject(BadRequest, NothingToUpdate), rows)
    ensures r.reply.Ok? <==> MayUpdate(principal, id) && HasChanges(body)
    ensures r.reply.Ok? ==> r.reply.payload == UpdateDone
    ensures r.rows.Keys == rows.Keys
    ensures forall other :: other in rows && other != id ==> r.rows[other] == rows[other]
    ensures id in rows ==> r.rows[id] == (if r.reply.Ok? then Patch(rows[id], body, h, salt, now) else rows[id])
  {
    if !MayUpdate(principal, id) then Change(Reject(Forbidden, NotOwner), rows)
    else if !HasChanges(body) then Change(Reject(BadRequest, NothingToUpdate), rows)
    else if id in rows then Change(Ok(UpdateDone), rows[id := Patch(rows[id], body, h, salt, now)])
    else Change(Ok(UpdateDone), rows)
  }

  /** `PUT /api/users/:id` behind `verifyToken`; a rejected token leaves the
      rows untouched. */
  function UpdateRoute(codec: TokenCodec, header: Option<string>, now: int, rows: map<int, User>, id: int,
                       body: UpdateBody, h: Hasher, salt: Salt): (r: Change)
    ensures Middleware.VerifyToken(codec, header, now).Reject? ==>
              r == Change(Reject(Middleware.VerifyToken(codec, header, now).status,
                                 Middleware.VerifyToken(codec, header, now).message), rows)
    ensures Middleware.VerifyToken(codec, header, now).Ok? ==>
              r == UpdateUser(rows, Middleware.VerifyToken(codec, header, now).payload.claims, id, body, h, salt, now)
  {
    match Middleware.VerifyToken(codec, header, now)
    case Reject(status, message) => Change(Reject(status, message), rows)
    case Ok(principal) => UpdateUser(rows, principal.claims, id, body, h, salt, now)
  }

  /** An update never touches the username, role, status or creation time,
      so it keeps every table constraint. */
  lemma UpdatePreservesValid(store: Store, principal: Claims, id: int, body: UpdateBody,
                             h: Hasher, salt: Salt, now: int)
    requires Valid(store)
    ensures Valid(Store(UpdateUser(store.rows, principal, id, body, h, salt, now).rows, store.lastId))
  {
    var rows' := UpdateUser(store.rows, principal, id, body, h, salt, now).rows;
    forall i, j | i in rows' && j in rows' && rows'[i].username == rows'[j].username
      ensures i == j
    {
      assert rows'[i].username == store.rows[i].username;
      assert rows'[j].username == store.rows[j].username;
    }
  }
}
