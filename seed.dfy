/**
 * The database seed: creates the administrator account unless a user with
 * the administrator's e-mail address already exists. Address, password and
 * name come from the environment, with fixed defaults.
 */
module Seed {
  import opened Wrappers
  import opened Common
  import opened Profiles
  import opened Db

  /** `ADMIN_EMAIL`, `ADMIN_PASSWORD` and `ADMIN_NAME`; `None` when unset. */
  datatype Env = Env(adminEmail: Option<string>, adminPassword: Option<string>, adminName: Option<string>)

  const DefaultEmail := "admin@brightmiss.com"
  const DefaultPassword := "admin123"
  const DefaultName := "Admin User"

  function AdminEmail(env: Env): string {
    OrElse(env.adminEmail, DefaultEmail)
  }

  /** The administrator row: role ADMIN and the hash of the configured or default password. */
  function AdminUser(env: Env, id: UserId, hash: string -> string): (u: User)
    ensures u.email == (if TruthyText(env.adminEmail) then env.adminEmail.value else DefaultEmail)
    ensures u.name == (if TruthyText(env.adminName) then env.adminName.value else DefaultName)
    ensures u.password == Some(hash(if TruthyText(env.adminPassword) then env.adminPassword.value else DefaultPassword))
    ensures u.id == id && u.role == Admin && !u.isInvited
  {
    User(id, OrElse(env.adminName, DefaultName), AdminEmail(env),
         Some(hash(OrElse(env.adminPassword, DefaultPassword))), Admin, false)
  }

  /** The administrator's profile: first name "Admin", last name "User", nothing pending. */
  function AdminProfile(): (p: Profile)
    ensures Slot(p, FirstName).value == Some("Admin") && Slot(p, LastName).value == Some("User")
    ensures WorkflowInvariant(p)
  {
    EmptyProfile.(firstName := BlankSlots.(value := Some("Admin")), lastName := BlankSlots.(value := Some("User")))
  }

  /** The seed on the store's tables: unchanged when the address is taken or the insert is refused. */
  function Seeded(t: Tables, env: Env, id: UserId, hash: string -> string): Tables {
    if EmailTaken(t.users, AdminEmail(env)) then t
    else Insert(t, AdminUser(env, id, hash), AdminProfile(), None).GetOr(t)
  }

  /** The seed keeps the store's constraints. */
  lemma SeedKeepsValid(t: Tables, env: Env, id: UserId, hash: string -> string)
    requires TablesValid(t)
    ensures TablesValid(Seeded(t, env, id, hash))
  {
    if !EmailTaken(t.users, AdminEmail(env)) && Insert(t, AdminUser(env, id, hash), AdminProfile(), None).Some? {
      InsertKeepsValid(t, AdminUser(env, id, hash), AdminProfile(), None);
    }
  }

  /**
   * On a store without the address, the seed adds exactly the administrator
   * and its profile, and the administrator is then the only holder of the
   * address.
   */
  lemma SeedCreatesAdmin(t: Tables, env: Env, id: UserId, hash: string -> string)
    requires TablesValid(t)
    requires !EmailTaken(t.users, AdminEmail(env)) && id !in t.users
    ensures var s := Seeded(t, env, id, hash);
      && s.users == t.users[id := AdminUser(env, id, hash)]
      && s.profiles == t.profiles[id := AdminProfile()]
      && s.tokens == t.tokens
      && UsersWithEmail(s.users, AdminEmail(env)) == {id}
  {
    InsertKeepsValid(t, AdminUser(env, id, hash), AdminProfile(), None);
  }

  /**
   * Running the seed a second time changes nothing, and leaves exactly one
   * user with the administrator's address, as long as the first run did not
   * fail on a colliding id.
   */
  lemma {:induction false} SeedTwice(t: Tables, env: Env, first: UserId, second: UserId, hash: string -> string)
    requires TablesValid(t)
    requires EmailTaken(t.users, AdminEmail(env)) || first !in t.users
    ensures Seeded(Seeded(t, env, first, hash), env, second, hash) == Seeded(t, env, first, hash)
    ensures |UsersWithEmail(Seeded(Seeded(t, env, first, hash), env, second, hash).users, AdminEmail(env))| == 1
  {
    var once := Seeded(t, env, first, hash);
    SeedKeepsValid(t, env, first, hash);
    if !EmailTaken(t.users, AdminEmail(env)) {
      SeedCreatesAdmin(t, env, first, hash);
      assert once.users[first].email == AdminEmail(env);
    }
    assert EmailTaken(once.users, AdminEmail(env));
    TakenEmailHasOneOwner(once.users, AdminEmail(env));
  }

  /** How a run of the seed ends: the account was there, was created, or the create threw (exit code 1). */
  datatype SeedOutcome = AlreadyExists | Created | Failed

  /**
   * The seed's `main`: look the address up, and create the administrator
   * with its profile only when it is absent. `newId` and `hash` stand for
   * the store's id generator and bcrypt.
   */
  method RunSeed(db: Store, env: Env, newId: UserId, hash: string -> string) returns (outcome: SeedOutcome)
    requires db.Valid()
    modifies db
    ensures db.Valid()
    ensures db.Snapshot() == Seeded(old(db.Snapshot()), env, newId, hash)
    ensures outcome == AlreadyExists <==> EmailTaken(old(db.users), AdminEmail(env))
    ensures outcome == Failed <==> !EmailTaken(old(db.users), AdminEmail(env)) && newId in old(db.users)
  {
    var email := OrElse(env.adminEmail, DefaultEmail);
    if EmailTaken(db.users, email) {
      return AlreadyExists;
    }
    var admin := AdminUser(env, newId, hash);
    var ok := db.CreateUser(admin, AdminProfile(), None);
    outcome := if ok then Created else Failed;
  }
}
