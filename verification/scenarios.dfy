/** Properties that span several operations: seeding then logging in,
    logging in then calling a gated route, and updating then logging in. */
module Scenarios {
  import opened Outcomes
  import opened Crypto
  import opened Schema
  import opened Seeding
  import opened Auth
  import opened Headers
  import Middleware
  import Directory

  /** The facts about the default rows the login relies on. */
  lemma DefaultRowsAdmitAdmin(h: Hasher, saltFor: nat -> Salt, seeded: int)
    ensures var rows := DefaultRows(h, saltFor, seeded, 3);
            && UniqueUsernames(rows)
            && 1 in rows && rows[1].username == "admin" && rows[1].role == Admin && rows[1].status == Aktif
            && rows[1].password == h.hash("admin123", saltFor(0))
            && !Taken(rows, "ghost")
  {
  }

  /** The seeded table's facts the login relies on. */
  lemma SeededTable(h: Hasher, saltFor: nat -> Salt, seeded: int)
    ensures var rows := CreateDefaultUsers(EmptyStore, h, saltFor, seeded).rows;
            && UniqueUsernames(rows)
            && 1 in rows && rows[1].username == "admin" && rows[1].role == Admin && rows[1].status == Aktif
            && rows[1].password == h.hash("admin123", saltFor(0))
            && !Taken(rows, "ghost")
  {
    SeedingEmptyStore(h, saltFor, seeded);
    DefaultRowsAdmitAdmin(h, saltFor, seeded);
  }

  /** On any table with an active `admin` row whose digest is that of
      `admin123` and no `ghost` row, the admin logs in and a wrong password
      gets exactly the reply of the unknown `ghost`. */
  lemma AdminLogin(rows: map<int, User>, h: Hasher, codec: TokenCodec, digest: string, now: int, wrong: string)
    requires UniqueUsernames(rows)
    requires 1 in rows && rows[1].username == "admin" && rows[1].role == Admin && rows[1].status == Aktif
    requires rows[1].password == digest && h.matches("admin123", digest)
    requires !Taken(rows, "ghost")
    requires wrong != "" && !h.matches(wrong, digest)
    ensures Login(rows, h, codec, LoginBody(Some("admin"), Some("admin123")), now).Ok?
    ensures Login(rows, h, codec, LoginBody(Some("admin"), Some("admin123")), now).payload.user.role == Admin
    ensures Login(rows, h, codec, LoginBody(Some("admin"), Some(wrong)), now)
         == Login(rows, h, codec, LoginBody(Some("ghost"), Some(wrong)), now)
         == Reject(Unauthorized, BadCredentials)
  {
    assert FindByUsername(rows, "admin") == Some(1);
  }

  /** On a freshly seeded table, `admin` with `admin123` logs in as an admin,
      and a wrong password gets exactly the reply of the unknown `ghost`. */
  lemma SeededAdminLogin(h: Hasher, codec: TokenCodec, saltFor: nat -> Salt, seeded: int, now: int, wrong: string)
    requires Sound(h)
    requires wrong != "" && !h.matches(wrong, h.hash("admin123", saltFor(0)))
    ensures var rows := CreateDefaultUsers(EmptyStore, h, saltFor, seeded).rows;
            && Login(rows, h, codec, LoginBody(Some("admin"), Some("admin123")), now).Ok?
            && Login(rows, h, codec, LoginBody(Some("admin"), Some("admin123")), now).payload.user.role == Admin
            && Login(rows, h, codec, LoginBody(Some("admin"), Some(wrong)), now)
               == Login(rows, h, codec, LoginBody(Some("ghost"), Some(wrong)), now)
               == Reject(Unauthorized, BadCredentials)
  {
    SeededTable(h, saltFor, seeded);
    AdminLogin(CreateDefaultUsers(EmptyStore, h, saltFor, seeded).rows, h, codec,
               h.hash("admin123", saltFor(0)), now, wrong);
  }

  /** In the three rows seeding the empty table yields, the row with id
      `k + 1` stores the digest of the `k`-th default password, and never the
      plaintext when the hasher never returns its input. */
  lemma DefaultRowsHashed(rows: map<int, User>, h: Hasher, saltFor: nat -> Salt, now: int)
    requires forall pw, salt :: h.hash(pw, salt) != pw
    requires rows == DefaultRows(h, saltFor, now, 3)
    ensures forall id :: id in rows ==>
              && 1 <= id <= |DefaultUsers|
              && rows[id].password == h.hash(DefaultUsers[id - 1].password, saltFor(id - 1))
              && rows[id].password != DefaultUsers[id - 1].password
  {
    forall id | id in rows
      ensures && 1 <= id <= |DefaultUsers|
              && rows[id].password == h.hash(DefaultUsers[id - 1].password, saltFor(id - 1))
              && rows[id].password != DefaultUsers[id - 1].password
    {
      assert rows[id] == DefaultRow(h, saltFor, now, id);
    }
  }

  /** On a freshly seeded table the row with id `k + 1` stores the digest of
      the `k`-th default password, and never the plaintext when the hasher
      never returns its input. */
  lemma SeededPasswordsHashed(h: Hasher, saltFor: nat -> Salt, now: int)
    requires forall pw, salt :: h.hash(pw, salt) != pw
    ensures var rows := CreateDefaultUsers(EmptyStore, h, saltFor, now).rows;
            forall id :: id in rows ==>
              && 1 <= id <= |DefaultUsers|
              && rows[id].password == h.hash(DefaultUsers[id - 1].password, saltFor(id - 1))
              && rows[id].password != DefaultUsers[id - 1].password
  {
    SeedingEmptyStore(h, saltFor, now);
    DefaultRowsHashed(CreateDefaultUsers(EmptyStore, h, saltFor, now).rows, h, saltFor, now);
  }

  /** Authorization trusts the token, not the table: after an account is
      deactivated, the token it got at login still passes the gate and still
      reads the profile, while a new login is refused with 403. */
  lemma TokenOutlivesDeactivation(rows: map<int, User>, h: Hasher, codec: TokenCodec, body: LoginBody,
                                  issued: int, later: int)
    requires UniqueUsernames(rows)
    requires Login(rows, h, codec, body, issued).Ok?
    requires forall p: Payload :: Faithful(codec, p)
    requires HeaderSafe(Login(rows, h, codec, body, issued).payload.token)
    requires issued <= later < issued + TokenLifetime
    ensures var id := Login(rows, h, codec, body, issued).payload.user.id;
            var token := Login(rows, h, codec, body, issued).payload.token;
            var deactivated := rows[id := rows[id].(status := Nonaktif)];
            && UniqueUsernames(deactivated)
            && Middleware.VerifyToken(codec, Some("Bearer " + token), later).Ok?
            && Directory.ProfileRoute(codec, Some("Bearer " + token), later, deactivated).Ok?
            && Directory.ProfileRoute(codec, Some("Bearer " + token), later, deactivated).payload.status == Nonaktif
            && Login(deactivated, h, codec, body, later) == Reject(Forbidden, Inactive)
  {
    var session := Login(rows, h, codec, body, issued).payload;
    var id :| && id in rows && rows[id].username == body.username.value
              && session == Session(Sign(codec, ClaimsOf(id, rows[id]), issued), LoginUserOf(id, rows[id]));
    var deactivated := rows[id := rows[id].(status := Nonaktif)];
    Middleware.SignedTokenPassesGate(codec, ClaimsOf(id, rows[id]), issued, later);
    assert FindByUsername(deactivated, body.username.value) == Some(id);
  }

  /** After a user changes their own password, logging in with the new
      password succeeds (for an active account). */
  lemma PasswordChangeThenLogin(rows: map<int, User>, id: int, principal: Claims, newPassword: string,
                                h: Hasher, codec: TokenCodec, salt: Salt, now: int, later: int)
    requires UniqueUsernames(rows)
    requires id in rows && rows[id].status == Aktif && rows[id].username != ""
    requires Directory.MayUpdate(principal, id)
    requires Sound(h) && newPassword != ""
    ensures var change := Directory.UpdateUser(rows, principal, id,
                            Directory.UpdateBody(None, None, None, Some(newPassword)), h, salt, now);
            && change.reply.Ok?
            && UniqueUsernames(change.rows)
            && Login(change.rows, h, codec, LoginBody(Some(rows[id].username), Some(newPassword)), later).Ok?
  {
    var body := Directory.UpdateBody(None, None, None, Some(newPassword));
    var rows' := Directory.UpdateUser(rows, principal, id, body, h, salt, now).rows;
    assert rows'[id].password == h.hash(newPassword, salt);
    assert forall i :: i in rows' ==> rows'[i].username == rows[i].username;
    LoginSucceedsIff(rows', h, codec, LoginBody(Some(rows[id].username), Some(newPassword)), later);
  }

  /** A courier who logs in gets a token that the admin-only lookup refuses
      with 403. */
  lemma CourierBarredFromLookup(rows: map<int, User>, h: Hasher, codec: TokenCodec, body: LoginBody,
                                issued: int, later: int, target: int)
    requires UniqueUsernames(rows)
    requires Login(rows, h, codec, body, issued).Ok?
    requires Login(rows, h, codec, body, issued).payload.user.role == Kurir
    requires forall p: Payload :: Faithful(codec, p)
    requires HeaderSafe(Login(rows, h, codec, body, issued).payload.token)
    requires issued <= later < issued + TokenLifetime
    ensures var token := Login(rows, h, codec, body, issued).payload.token;
            Directory.GetUserRoute(codec, Some("Bearer " + token), later, rows, target)
              == Reject(Forbidden, Middleware.AdminOnly)
  {
    var session := Login(rows, h, codec, body, issued).payload;
    var id :| && id in rows && rows[id].username == body.username.value
              && session == Session(Sign(codec, ClaimsOf(id, rows[id]), issued), LoginUserOf(id, rows[id]));
    Middleware.SignedTokenPassesGate(codec, ClaimsOf(id, rows[id]), issued, later);
  }
}
