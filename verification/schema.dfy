/** The `users` table as an abstract store: rows keyed by id, the column
    constraints as a validity predicate, and the INSERT that enforces them. */
module Schema {
  import opened Outcomes

  /** The literal values the schema and the server compare against. */
  const Admin := "admin"
  const Kurir := "kurir"
  const Aktif := "aktif"
  const Nonaktif := "nonaktif"

  /** One row of `users`; its id is the key it is stored under. `password`
      holds the bcrypt digest; `email` and `telepon` are nullable. */
  datatype User = User(
    username: string,
    password: string,
    role: string,
    namaLengkap: string,
    email: Option<string>,
    telepon: Option<string>,
    status: string,
    createdAt: int,
    updatedAt: int)

  /** The table: rows by id, and the AUTOINCREMENT high-water mark (the
      largest id ever handed out). */
  datatype Store = Store(rows: map<int, User>, lastId: int)

  /** The table before any insert. */
  const EmptyStore := Store(map[], 0)

  /** `CHECK(role IN ('admin', 'kurir'))`. */
  predicate ValidRole(role: string)
  {
    role == Admin || role == Kurir
  }

  /** `CHECK(status IN ('aktif', 'nonaktif'))`. */
  predicate ValidStatus(status: string)
  {
    status == Aktif || status == Nonaktif
  }

  /** `username TEXT UNIQUE`: no two rows share a username. */
  predicate UniqueUsernames(rows: map<int, User>)
  {
    forall i, j :: i in rows && j in rows && rows[i].username == rows[j].username ==> i == j
  }

  /** Some row has this username. */
  predicate Taken(rows: map<int, User>, name: string)
  {
    exists id :: id in rows && rows[id].username == name
  }

  /** Every constraint of the table holds, and every id is positive and at
      most the AUTOINCREMENT mark. */
  predicate Valid(store: Store)
  {
    && 0 <= store.lastId
    && UniqueUsernames(store.rows)
    && forall id :: id in store.rows ==>
         && 0 < id <= store.lastId
         && ValidRole(store.rows[id].role)
         && ValidStatus(store.rows[id].status)
  }

  lemma EmptyStoreValid()
    ensures Valid(EmptyStore)
  {
  }

  /** The values an INSERT names; a status left out takes the column default. */
  datatype NewRow = NewRow(
    username: string,
    password: string,
    role: string,
    namaLengkap: string,
    email: Option<string>,
    telepon: Option<string>,
    status: Option<string>)

  datatype InsertError = CheckViolated | UniqueViolated

  /** The store after an insert, and the id the new row got. */
  datatype Inserted = Inserted(store: Store, id: int)

  /** The status a new row gets: the one named, else `DEFAULT 'aktif'`. */
  function StatusOf(row: NewRow): string
  {
    if row.status.Some? then row.status.value else Aktif
  }

  /** `INSERT INTO users ...` at time `now`: refused when a CHECK or the UNIQUE
      constraint fails; otherwise the row gets the next AUTOINCREMENT id and
      both timestamps default to `now`. */
  function Insert(store: Store, row: NewRow, now: int): (r: Result<Inserted, InsertError>)
    ensures r.Failure? <==>
              !ValidRole(row.role) || !ValidStatus(StatusOf(row)) || Taken(store.rows, row.username)
    ensures r.Failure? && ValidRole(row.role) && ValidStatus(StatusOf(row)) ==>
              r.error == UniqueViolated
    ensures r.Success? ==>
              && r.value.id == store.lastId + 1
              && r.value.id == r.value.store.lastId
              && r.value.store.rows.Keys == store.rows.Keys + {r.value.id}
              && r.value.store.rows[r.value.id]
                   == User(row.username, row.password, row.role, row.namaLengkap,
                           row.email, row.telepon, StatusOf(row), now, now)
    ensures r.Success? && Valid(store) ==>
              && r.value.id !in store.rows
              && (forall id :: id in store.rows ==> r.value.store.rows[id] == store.rows[id])
              && Valid(r.value.store)
  {
    var status := StatusOf(row);
    if !ValidRole(row.role) || !ValidStatus(status) then Failure(CheckViolated)
    else if Taken(store.rows, row.username) then Failure(UniqueViolated)
    else
      var id := store.lastId + 1;
      var user := User(row.username, row.password, row.role, row.namaLengkap,
                       row.email, row.telepon, status, now, now);
      Success(Inserted(Store(store.rows[id := user], id), id))
  }

  /** `SELECT * FROM users WHERE username = ?`: the id of the row with that
      username, which the UNIQUE constraint makes at most one. */
  function FindByUsername(rows: map<int, User>, name: string): (r: Option<int>)
    requires UniqueUsernames(rows)
    ensures r.Some? <==> Taken(rows, name)
    ensures r.Some? ==> r.value in rows && rows[r.value].username == name
    ensures forall id :: id in rows && rows[id].username == name ==> r == Some(id)
  {
    if Taken(rows, name) then
      var id :| id in rows && rows[id].username == name;
      Some(id)
    else None
  }

  /** The columns the directory handlers select: every column but `password`
      and `updated_at`. */
  datatype UserView = UserView(
    id: int,
    username: string,
    role: string,
    namaLengkap: string,
    email: Option<string>,
    telepon: Option<string>,
    status: string,
    createdAt: int)

  function View(id: int, u: User): UserView
  {
    UserView(id, u.username, u.role, u.namaLengkap, u.email, u.telepon, u.status, u.createdAt)
  }
}
