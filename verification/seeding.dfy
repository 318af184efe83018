/** `createDefaultUsers`: for each default account, look its username up and
    insert it, with a hashed password and the default status, only when no
    row has that username. Run sequentially here. */
module Seeding {
  import opened Outcomes
  import opened Crypto
  import opened Schema

  /** A default account, password in plaintext. */
  datatype Seed = Seed(
    username: string,
    password: string,
    role: string,
    namaLengkap: string,
    email: string,
    telepon: string)

  const DefaultUsers: seq<Seed> := [
    Seed("admin", "admin123", "admin", "Administrator", "admin@delivery.com", "081234567890"),
    Seed("kurir1", "kurir123", "kurir", "Kurir Satu", "kurir1@delivery.com", "081234567891"),
    Seed("kurir2", "kurir123", "kurir", "Kurir Dua", "kurir2@delivery.com", "081234567892")
  ]

  /** The INSERT of a seed: the password hashed with the drawn salt, the
      status left to its column default. */
  function SeedRow(seed: Seed, h: Hasher, salt: Salt): NewRow
  {
    NewRow(seed.username, h.hash(seed.password, salt), seed.role, seed.namaLengkap,
           Some(seed.email), Some(seed.telepon), None)
  }

  /** The row a seed becomes when it is inserted at time `now`. */
  function SeededUser(seed: Seed, h: Hasher, salt: Salt, now: int): User
  {
    User(seed.username, h.hash(seed.password, salt), seed.role, seed.namaLengkap,
         Some(seed.email), Some(seed.telepon), Aktif, now, now)
  }

  /** Every row of `store` is still in `r`, unchanged. */
  predicate Keeps(store: Store, r: Store)
  {
    forall id :: id in store.rows ==> id in r.rows && r.rows[id] == store.rows[id]
  }

  /** Every username of `seeds[i..]` names a row. */
  predicate AllTaken(rows: map<int, User>, seeds: seq<Seed>, i: nat)
  {
    forall k :: i <= k < |seeds| ==> Taken(rows, seeds[k].username)
  }

  /** Every row of `r` that is not in `store` is the row of some seed of
      `seeds[i..]` whose username `store` did not hold, with that seed's salt. */
  predicate AddsOnlySeeds(store: Store, r: Store, seeds: seq<Seed>, i: nat, h: Hasher, saltFor: nat -> Salt, now: int)
  {
    forall id :: id in r.rows && id !in store.rows ==>
      exists k :: && i <= k < |seeds| && !Taken(store.rows, seeds[k].username)
                  && r.rows[id] == SeededUser(seeds[k], h, saltFor(k), now)
  }

  /** One step of the `forEach`: nothing when the username is taken,
      otherwise the insert; a refused insert is only logged. */
  function SeedOne(store: Store, seed: Seed, h: Hasher, salt: Salt, now: int): (r: Store)
    ensures Taken(store.rows, seed.username) ==> r == store
    ensures !Taken(store.rows, seed.username) && ValidRole(seed.role) ==>
              r == Store(store.rows[store.lastId + 1 := SeededUser(seed, h, salt, now)], store.lastId + 1)
    ensures ValidRole(seed.role) ==> Taken(r.rows, seed.username)
    ensures Valid(store) ==> Valid(r) && Keeps(store, r)
    ensures Valid(store) ==>
              forall id :: id in r.rows && id !in store.rows ==>
                !Taken(store.rows, seed.username) && r.rows[id] == SeededUser(seed, h, salt, now)
  {
    if Taken(store.rows, seed.username) then store
    else
      match Insert(store, SeedRow(seed, h, salt), now)
      case Success(inserted) => inserted.store
      case Failure(_) => store
  }

  /** Seeds `seeds[i..]` in order; the `k`-th seed draws salt `saltFor(k)`. */
  function SeedFrom(store: Store, seeds: seq<Seed>, i: nat, h: Hasher, saltFor: nat -> Salt, now: int): (r: Store)
    requires i <= |seeds|
    ensures AllTaken(store.rows, seeds, i) ==> r == store
    ensures Valid(store) ==> Valid(r) && Keeps(store, r)
    ensures Valid(store) && (forall k :: i <= k < |seeds| ==> ValidRole(seeds[k].role)) ==>
              AllTaken(r.rows, seeds, i)
    ensures Valid(store) ==> AddsOnlySeeds(store, r, seeds, i, h, saltFor, now)
    decreases |seeds| - i
  {
    if i == |seeds| then store
    else
      var next := SeedOne(store, seeds[i], h, saltFor(i), now);
      var r := SeedFrom(next, seeds, i + 1, h, saltFor, now);
      SeedFromStep(store, next, r, seeds, i, h, saltFor, now);
      r
  }

  /** The inductive step of `SeedFrom`: what holds of `r`, the result of
      seeding `seeds[i + 1..]` onto `next`, and of `next`, the table after the
      step for `seeds[i]`, gives what `SeedFrom` promises of seeding
      `seeds[i..]` onto `store`. */
  lemma SeedFromStep(store: Store, next: Store, r: Store, seeds: seq<Seed>, i: nat,
                     h: Hasher, saltFor: nat -> Salt, now: int)
    requires i < |seeds|
    requires Taken(store.rows, seeds[i].username) ==> next == store
    requires ValidRole(seeds[i].role) ==> Taken(next.rows, seeds[i].username)
    requires Valid(store) ==>
               && Valid(next) && Keeps(store, next)
               && (forall id :: id in next.rows && id !in store.rows ==>
                     !Taken(store.rows, seeds[i].username) && next.rows[id] == SeededUser(seeds[i], h, saltFor(i), now))
    requires AllTaken(next.rows, seeds, i + 1) ==> r == next
    requires Valid(next) ==> Valid(r) && Keeps(next, r)
    requires Valid(next) && (forall k :: i + 1 <= k < |seeds| ==> ValidRole(seeds[k].role)) ==>
               AllTaken(r.rows, seeds, i + 1)
    requires Valid(next) ==> AddsOnlySeeds(next, r, seeds, i + 1, h, saltFor, now)
    ensures AllTaken(store.rows, seeds, i) ==> r == store
    ensures Valid(store) ==> Valid(r) && Keeps(store, r)
    ensures Valid(store) && (forall k :: i <= k < |seeds| ==> ValidRole(seeds[k].role)) ==>
              AllTaken(r.rows, seeds, i)
    ensures Valid(store) ==> AddsOnlySeeds(store, r, seeds, i, h, saltFor, now)
  {
    if AllTaken(store.rows, seeds, i) {
      assert AllTaken(next.rows, seeds, i + 1);
    }
    if Valid(store) {
      forall k | i <= k < |seeds| && Taken(next.rows, seeds[k].username)
        ensures Taken(r.rows, seeds[k].username)
      {
        var j :| j in next.rows && next.rows[j].username == seeds[k].username;
        assert j in r.rows && r.rows[j].username == seeds[k].username;
      }
      forall id | id in r.rows && id !in store.rows
        ensures exists k :: && i <= k < |seeds| && !Taken(store.rows, seeds[k].username)
                            && r.rows[id] == SeededUser(seeds[k], h, saltFor(k), now)
      {
        if id in next.rows {
          assert r.rows[id] == SeededUser(seeds[i], h, saltFor(i), now);
        } else {
          var k :| && i + 1 <= k < |seeds| && !Taken(next.rows, seeds[k].username)
                   && r.rows[id] == SeededUser(seeds[k], h, saltFor(k), now);
          assert !Taken(store.rows, seeds[k].username);
        }
      }
    }
  }

  /** `createDefaultUsers` at time `now`. */
  function CreateDefaultUsers(store: Store, h: Hasher, saltFor: nat -> Salt, now: int): (r: Store)
    ensures Valid(store) ==> Valid(r) && Keeps(store, r)
    ensures Valid(store) ==> Taken(r.rows, "admin") && Taken(r.rows, "kurir1") && Taken(r.rows, "kurir2")
    ensures Valid(store) ==> AddsOnlySeeds(store, r, DefaultUsers, 0, h, saltFor, now)
  {
    var r := SeedFrom(store, DefaultUsers, 0, h, saltFor, now);
    assert Valid(store) ==> AllTaken(r.rows, DefaultUsers, 0);
    assert DefaultUsers[0].username == "admin";
    assert DefaultUsers[1].username == "kurir1";
    assert DefaultUsers[2].username == "kurir2";
    r
  }

  /** A table holding `admin`, `kurir1` and `kurir2` holds every default
      username. */
  lemma DefaultsTaken(rows: map<int, User>)
    requires Taken(rows, "admin") && Taken(rows, "kurir1") && Taken(rows, "kurir2")
    ensures AllTaken(rows, DefaultUsers, 0)
  {
    assert DefaultUsers[0].username == "admin";
    assert DefaultUsers[1].username == "kurir1";
    assert DefaultUsers[2].username == "kurir2";
  }

  /** Seeding a second time — with other salts, at another time — adds
      nothing and changes nothing. */
  lemma SeedingIdempotent(store: Store, h: Hasher, salts1: nat -> Salt, salts2: nat -> Salt, now1: int, now2: int)
    requires Valid(store)
    ensures CreateDefaultUsers(CreateDefaultUsers(store, h, salts1, now1), h, salts2, now2)
         == CreateDefaultUsers(store, h, salts1, now1)
  {
    var once := CreateDefaultUsers(store, h, salts1, now1);
    DefaultsTaken(once.rows);
    assert CreateDefaultUsers(once, h, salts2, now2) == SeedFrom(once, DefaultUsers, 0, h, salts2, now2);
  }

  /** The row seeding from empty gives id `id`: the default account listed
      `id`-th. */
  function DefaultRow(h: Hasher, saltFor: nat -> Salt, now: int, id: int): User
    requires 1 <= id <= |DefaultUsers|
  {
    SeededUser(DefaultUsers[id - 1], h, saltFor(id - 1), now)
  }

  /** The first `n` rows seeding from empty gives, as the map they are. */
  function DefaultRows(h: Hasher, saltFor: nat -> Salt, now: int, n: nat): map<int, User>
    requires n <= |DefaultUsers|
  {
    map id | 1 <= id <= n :: DefaultRow(h, saltFor, now, id)
  }

  /** Seeding the `n`-th default account onto the first `n` default rows
      inserts it under id `n + 1`, since no earlier account shares its name. */
  lemma SeedOneDefault(h: Hasher, saltFor: nat -> Salt, now: int, n: nat)
    requires n < |DefaultUsers|
    ensures SeedOne(Store(DefaultRows(h, saltFor, now, n), n), DefaultUsers[n], h, saltFor(n), now)
         == Store(DefaultRows(h, saltFor, now, n + 1), n + 1)
  {
    var rows := DefaultRows(h, saltFor, now, n);
    assert !Taken(rows, DefaultUsers[n].username);
    assert rows[n + 1 := SeededUser(DefaultUsers[n], h, saltFor(n), now)] == DefaultRows(h, saltFor, now, n + 1);
  }

  /** Seeding the defaults from the `n`-th onto the first `n` default rows
      is seeding them from the next one onto the first `n + 1`. */
  lemma SeedFromDefault(h: Hasher, saltFor: nat -> Salt, now: int, n: nat)
    requires n < |DefaultUsers|
    ensures SeedFrom(Store(DefaultRows(h, saltFor, now, n), n), DefaultUsers, n, h, saltFor, now)
         == SeedFrom(Store(DefaultRows(h, saltFor, now, n + 1), n + 1), DefaultUsers, n + 1, h, saltFor, now)
  {
    SeedOneDefault(h, saltFor, now, n);
  }

  /** Seeding the empty table yields exactly the three default accounts, with
      ids 1 to 3, status `'aktif'`, and each password stored as its digest. */
  lemma SeedingEmptyStore(h: Hasher, saltFor: nat -> Salt, now: int)
    ensures CreateDefaultUsers(EmptyStore, h, saltFor, now) == Store(map[
              1 := SeededUser(DefaultUsers[0], h, saltFor(0), now),
              2 := SeededUser(DefaultUsers[1], h, saltFor(1), now),
              3 := SeededUser(DefaultUsers[2], h, saltFor(2), now)], 3)
    ensures CreateDefaultUsers(EmptyStore, h, saltFor, now) == Store(DefaultRows(h, saltFor, now, 3), 3)
  {
    assert EmptyStore == Store(DefaultRows(h, saltFor, now, 0), 0);
    SeedFromDefault(h, saltFor, now, 0);
    SeedFromDefault(h, saltFor, now, 1);
    SeedFromDefault(h, saltFor, now, 2);
    assert DefaultRows(h, saltFor, now, 3) == map[
              1 := SeededUser(DefaultUsers[0], h, saltFor(0), now),
              2 := SeededUser(DefaultUsers[1], h, saltFor(1), now),
              3 := SeededUser(DefaultUsers[2], h, saltFor(2), now)];
  }
}
