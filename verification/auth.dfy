/** The login handler: a fixed sequence of checks over the request body and
    the user's row, ending in a signed session token. */
module Auth {
  import opened Outcomes
  import opened Crypto
  import opened Schema

  const Required := "Username dan password harus diisi"
  const BadCredentials := "Username atau password salah"
  const Inactive := "Akun Anda tidak aktif. Hubungi administrator."

  /** The JSON body of `POST /api/login`. */
  datatype LoginBody = LoginBody(username: Option<string>, password: Option<string>)

  /** The `user` object of a successful login; it has no password field. */
  datatype LoginUser = LoginUser(
    id: int,
    username: string,
    role: string,
    namaLengkap: string,
    email: Option<string>,
    telepon: Option<string>)

  /** The payload of a successful login: the token and the user object. */
  datatype Session = Session(token: string, user: LoginUser)

  function LoginUserOf(id: int, u: User): LoginUser
  {
    LoginUser(id, u.username, u.role, u.namaLengkap, u.email, u.telepon)
  }

  /** The claims the token carries for the row `id`. */
  function ClaimsOf(id: int, u: User): Claims
  {
    Claims(id, u.username, u.role)
  }

  /** The login succeeds for this body: some row has the username, is
      `'aktif'` and its digest verifies against the password. */
  predicate Admits(rows: map<int, User>, h: Hasher, body: LoginBody)
  {
    && Supplied(body.username) && Supplied(body.password)
    && exists id :: id in rows && rows[id].username == body.username.value
                    && rows[id].status == Aktif && h.matches(body.password.value, rows[id].password)
  }

  /** `POST /api/login` at time `now`. */
  function Login(rows: map<int, User>, h: Hasher, codec: TokenCodec, body: LoginBody, now: int): (r: Reply<Session>)
    requires UniqueUsernames(rows)
    ensures !Supplied(body.username) || !Supplied(body.password) ==> r == Reject(BadRequest, Required)
    ensures Supplied(body.username) && Supplied(body.password) && !Taken(rows, body.username.value) ==>
              r == Reject(Unauthorized, BadCredentials)
    ensures r.Reject? ==>
              r in {Reject(BadRequest, Required), Reject(Unauthorized, BadCredentials), Reject(Forbidden, Inactive)}
    ensures r == Reject(Forbidden, Inactive) <==>
              && Supplied(body.username) && Supplied(body.password)
              && exists id :: id in rows && rows[id].username == body.username.value && rows[id].status != Aktif
    ensures r.Ok? ==>
              exists id :: && id in rows && rows[id].username == body.username.value
                           && r.payload == Session(Sign(codec, ClaimsOf(id, rows[id]), now), LoginUserOf(id, rows[id]))
  {
    if !Supplied(body.username) || !Supplied(body.password) then Reject(BadRequest, Required)
    else
      match FindByUsername(rows, body.username.value)
      case None => Reject(Unauthorized, BadCredentials)
      case Some(id) =>
        var user := rows[id];
        if user.status != Aktif then Reject(Forbidden, Inactive)
        else if !h.matches(body.password.value, user.password) then Reject(Unauthorized, BadCredentials)
        else Ok(Session(Sign(codec, ClaimsOf(id, user), now), LoginUserOf(id, user)))
  }

  /** Login succeeds exactly for a supplied username and password naming an
      active row whose digest verifies. */
  lemma LoginSucceedsIff(rows: map<int, User>, h: Hasher, codec: TokenCodec, body: LoginBody, now: int)
    requires UniqueUsernames(rows)
    ensures Login(rows, h, codec, body, now).Ok? <==> Admits(rows, h, body)
  {
    if Admits(rows, h, body) {
      var id :| id in rows && rows[id].username == body.username.value
                && rows[id].status == Aktif && h.matches(body.password.value, rows[id].password);
      assert FindByUsername(rows, body.username.value) == Some(id);
    }
  }

  /** A missing or empty field is refused with 400 before the store is read:
      the answer is the same whatever the store holds. */
  lemma EmptyInputIgnoresStore(rows1: map<int, User>, rows2: map<int, User>, h: Hasher, codec: TokenCodec,
                               body: LoginBody, now: int)
    requires UniqueUsernames(rows1) && UniqueUsernames(rows2)
    requires !Supplied(body.username) || !Supplied(body.password)
    ensures Login(rows1, h, codec, body, now) == Login(rows2, h, codec, body, now) == Reject(BadRequest, Required)
  {
  }

  /** Username enumeration is impossible: an unknown username and a wrong
      password for an active user get the identical reply. */
  lemma UnknownUserLikeWrongPassword(rows1: map<int, User>, rows2: map<int, User>, h: Hasher, codec: TokenCodec,
                                     name: string, password: string, now: int)
    requires UniqueUsernames(rows1) && UniqueUsernames(rows2)
    requires name != "" && password != ""
    requires !Taken(rows1, name)
    requires forall id :: id in rows2 && rows2[id].username == name ==>
               rows2[id].status == Aktif && !h.matches(password, rows2[id].password)
    requires Taken(rows2, name)
    ensures Login(rows1, h, codec, LoginBody(Some(name), Some(password)), now)
         == Login(rows2, h, codec, LoginBody(Some(name), Some(password)), now)
         == Reject(Unauthorized, BadCredentials)
  {
    var id :| id in rows2 && rows2[id].username == name;
    assert FindByUsername(rows2, name) == Some(id);
  }

  /** An account that is not `'aktif'` is refused with 403 before the
      password is looked at: every supplied password gets the same reply. */
  lemma InactiveIgnoresPassword(rows: map<int, User>, h: Hasher, codec: TokenCodec, id: int,
                                pw1: string, pw2: string, now: int)
    requires UniqueUsernames(rows)
    requires id in rows && rows[id].username != "" && rows[id].status != Aktif
    requires pw1 != "" && pw2 != ""
    ensures Login(rows, h, codec, LoginBody(Some(rows[id].username), Some(pw1)), now)
         == Login(rows, h, codec, LoginBody(Some(rows[id].username), Some(pw2)), now)
         == Reject(Forbidden, Inactive)
  {
    assert FindByUsername(rows, rows[id].username) == Some(id);
  }

  /** The token of a successful login, once decoded within its lifetime,
      carries exactly the `{id, username, role}` of the stored row, issued
      now and expiring 24 hours later. */
  lemma LoginTokenCarriesRow(rows: map<int, User>, h: Hasher, codec: TokenCodec, body: LoginBody,
                             now: int, later: int)
    requires UniqueUsernames(rows)
    requires Login(rows, h, codec, body, now).Ok?
    requires forall p: Payload :: Faithful(codec, p)
    requires now <= later < now + TokenLifetime
    ensures exists id :: && id in rows && rows[id].username == body.username.value
                         && Verify(codec, Login(rows, h, codec, body, now).payload.token, later)
                              == Some(Payload(Claims(id, rows[id].username, rows[id].role), now, now + TokenLifetime))
                         && Login(rows, h, codec, body, now).payload.user.id == id
  {
    var id :| && id in rows && rows[id].username == body.username.value
              && Login(rows, h, codec, body, now).payload
                   == Session(Sign(codec, ClaimsOf(id, rows[id]), now), LoginUserOf(id, rows[id]));
    SignVerify(codec, ClaimsOf(id, rows[id]), now, later);
  }
}
