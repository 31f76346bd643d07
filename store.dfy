/**
 * The relational store behind the routes, as in-memory maps: users keyed by
 * id with unique e-mail addresses, one profile per user, and invite tokens
 * keyed by their unique token string.
 */
module Db {
  import opened Wrappers
  import opened Common
  import opened Profiles

  type UserId = string

  datatype User = User(
    id: UserId,
    name: string,
    email: string,
    /** the password hash; null for an invited user who has not set one */
    password: Option<string>,
    role: Role,
    isInvited: bool)

  datatype InviteToken = InviteToken(token: string, userId: UserId, expiresAt: int, used: bool)

  /** The unique constraint on `User.email`. */
  ghost predicate UniqueEmails(users: map<UserId, User>) {
    forall a, b :: a in users && b in users && users[a].email == users[b].email ==> a == b
  }

  /** `prisma.user.findUnique({ where: { email } })` finds a user. */
  predicate EmailTaken(users: map<UserId, User>, email: string) {
    exists u :: u in users && users[u].email == email
  }

  /** The ids of the users registered with `email`. */
  ghost function UsersWithEmail(users: map<UserId, User>, email: string): set<UserId> {
    set u | u in users && users[u].email == email
  }

  /** Under the unique constraint, a taken address belongs to exactly one user. */
  lemma {:induction false} TakenEmailHasOneOwner(users: map<UserId, User>, email: string)
    requires UniqueEmails(users)
    ensures EmailTaken(users, email) <==> |UsersWithEmail(users, email)| == 1
  {
    var owners := UsersWithEmail(users, email);
    if EmailTaken(users, email) {
      var u :| u in users && users[u].email == email;
      assert owners == {u};
    } else {
      assert owners == {};
    }
  }

  /** Writing back the stored value leaves a map as it was. */
  lemma UpdateSame<K, V>(m: map<K, V>, k: K)
    requires k in m
    ensures m[k := m[k]] == m
  {
  }

  /** The token strings issued to one user. */
  ghost function TokensOf(tokens: map<string, InviteToken>, uid: UserId): set<string> {
    set t | t in tokens && tokens[t].userId == uid
  }

  /** The three tables of the store as one value. */
  datatype Tables = Tables(users: map<UserId, User>, profiles: map<UserId, Profile>, tokens: map<string, InviteToken>)

  /** The store's constraints plus the workflow invariant on every profile. */
  ghost predicate TablesValid(t: Tables) {
    && (forall u :: u in t.users ==> t.users[u].id == u)
    && UniqueEmails(t.users)
    && t.profiles.Keys <= t.users.Keys
    && (forall u :: u in t.profiles ==> WorkflowInvariant(t.profiles[u]))
    && (forall k :: k in t.tokens ==> t.tokens[k].token == k && t.tokens[k].userId in t.users)
  }

  /**
   * A nested `user.create` of a user with its profile and, for an invite,
   * its token. It is refused as a whole on a unique-constraint violation:
   * the id, the e-mail address or the token string is already present.
   */
  function Insert(t: Tables, user: User, profile: Profile, token: Option<InviteToken>): (r: Option<Tables>)
    ensures r.Some? <==> && user.id !in t.users
                         && !EmailTaken(t.users, user.email)
                         && (token.Some? ==> token.value.token !in t.tokens)
  {
    if user.id in t.users || EmailTaken(t.users, user.email)
       || (token.Some? && token.value.token in t.tokens)
    then None
    else Some(Tables(
      t.users[user.id := user],
      t.profiles[user.id := profile],
      if token.Some? then t.tokens[token.value.token := token.value] else t.tokens))
  }

  /**
   * An accepted insert keeps the constraints, makes the new user the only
   * holder of its address, and gives it exactly the token created with it.
   */
  lemma {:induction false} InsertKeepsValid(t: Tables, user: User, profile: Profile, token: Option<InviteToken>)
    requires TablesValid(t)
    requires WorkflowInvariant(profile)
    requires token.Some? ==> token.value.userId == user.id
    requires Insert(t, user, profile, token).Some?
    ensures var n := Insert(t, user, profile, token).value;
      && TablesValid(n)
      && UsersWithEmail(n.users, user.email) == {user.id}
      && TokensOf(n.tokens, user.id) == (if token.Some? then {token.value.token} else {})
  {
    AddUserKeepsUnique(t.users, user);
    AddTokenOwned(t.tokens, t.users, user.id, token);
    var n := Insert(t, user, profile, token).value;
    assert n.users == t.users[user.id := user];
    assert n.profiles == t.profiles[user.id := profile];
  }

  /** The token created with a new user is the only one it owns, and every token keeps a stored owner. */
  lemma AddTokenOwned(tokens: map<string, InviteToken>, users: map<UserId, User>, uid: UserId,
                      token: Option<InviteToken>)
    requires forall k :: k in tokens ==> tokens[k].token == k && tokens[k].userId in users
    requires uid !in users
    requires token.Some? ==> token.value.userId == uid && token.value.token !in tokens
    ensures var n := if token.Some? then tokens[token.value.token := token.value] else tokens;
      && TokensOf(n, uid) == (if token.Some? then {token.value.token} else {})
      && (forall k :: k in n ==> n[k].token == k && (n[k].userId in users || n[k].userId == uid))
  {
    if token.None? {
      assert TokensOf(tokens, uid) == {};
    }
  }

  /** An accepted insert leaves every earlier user, profile and token row as it was. */
  lemma InsertKeepsRows(t: Tables, user: User, profile: Profile, token: Option<InviteToken>)
    requires t.profiles.Keys <= t.users.Keys
    requires Insert(t, user, profile, token).Some?
    ensures var n := Insert(t, user, profile, token).value;
      && (forall u :: u in t.users ==> u in n.users && n.users[u] == t.users[u])
      && (forall u :: u in t.profiles ==> u in n.profiles && n.profiles[u] == t.profiles[u])
      && (forall k :: k in t.tokens ==> k in n.tokens && n.tokens[k] == t.tokens[k])
  {
    var n := Insert(t, user, profile, token).value;
    if token.Some? {
      assert n.tokens == t.tokens[token.value.token := token.value];
    }
  }

  /** Adding a user with a fresh id and an address nobody holds keeps addresses unique. */
  lemma AddUserKeepsUnique(users: map<UserId, User>, user: User)
    requires UniqueEmails(users)
    requires user.id !in users && !EmailTaken(users, user.email)
    ensures UniqueEmails(users[user.id := user])
    ensures UsersWithEmail(users[user.id := user], user.email) == {user.id}
  {
    var n := users[user.id := user];
    forall a, b | a in n && b in n && n[a].email == n[b].email
      ensures a == b
    {
      if a != user.id && b != user.id {
        assert users[a].email == users[b].email;
      }
    }
  }

  /** Replacing a stored profile by one that keeps the workflow invariant keeps the store valid. */
  lemma ReplaceProfileKeepsValid(t: Tables, uid: UserId, p: Profile)
    requires TablesValid(t)
    requires uid in t.profiles
    requires WorkflowInvariant(p)
    ensures TablesValid(t.(profiles := t.profiles[uid := p]))
  {
  }

  /** The public part of a user, as the routes return it: no password hash. */
  datatype PublicUser = PublicUser(id: UserId, name: string, email: string, role: Role)

  function Public(u: User): PublicUser {
    PublicUser(u.id, u.name, u.email, u.role)
  }

  class Store {
    var users: map<UserId, User>
    var profiles: map<UserId, Profile>
    var tokens: map<string, InviteToken>

    function Snapshot(): Tables
      reads this
    {
      Tables(users, profiles, tokens)
    }

    ghost predicate Valid()
      reads this
    {
      TablesValid(Snapshot())
    }

    constructor ()
      ensures Valid()
      ensures users == map[] && profiles == map[] && tokens == map[]
    {
      users, profiles, tokens := map[], map[], map[];
    }

    /** The store's `user.create`: applies `Insert`, or changes nothing when it is refused. */
    method CreateUser(user: User, profile: Profile, token: Option<InviteToken>) returns (ok: bool)
      requires Valid()
      requires WorkflowInvariant(profile)
      requires token.Some? ==> token.value.userId == user.id
      modifies this
      ensures Valid()
      ensures ok == Insert(old(Snapshot()), user, profile, token).Some?
      ensures Snapshot() == Insert(old(Snapshot()), user, profile, token).GetOr(old(Snapshot()))
    {
      var inserted := Insert(Snapshot(), user, profile, token);
      ok := inserted.Some?;
      if ok {
        InsertKeepsValid(Snapshot(), user, profile, token);
        users, profiles, tokens := inserted.value.users, inserted.value.profiles, inserted.value.tokens;
      }
    }

    /** `prisma.userProfile.update` of an existing profile. */
    method UpdateProfile(uid: UserId, p: Profile)
      requires Valid()
      requires uid in profiles
      requires WorkflowInvariant(p)
      modifies this
      ensures Valid()
      ensures profiles == old(profiles)[uid := p]
      ensures users == old(users) && tokens == old(tokens)
    {
      ReplaceProfileKeepsValid(Snapshot(), uid, p);
      profiles := profiles[uid := p];
    }
  }
}
