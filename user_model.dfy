/**
 * The user collection: record shape, the `role` enum with its default, the
 * `lastLogin` default, and the unique normalised email, which the model
 * makes the key of the user map.
 */
module UserModel {
  import opened Wrappers
  import opened Text

  datatype Role = UserRole | AdminRole

  function RoleName(role: Role): string {
    match role
    case UserRole => "user"
    case AdminRole => "admin"
  }

  /** The schema's enum check on a role string. */
  function ParseRole(s: string): (r: Option<Role>)
    ensures r.Some? <==> s == "user" || s == "admin"
  {
    if s == "user" then Some(UserRole)
    else if s == "admin" then Some(AdminRole)
    else None
  }

  /** The enum accepts exactly the names of the two roles, and reads each name back as its role. */
  lemma ParseRoleInverse(s: string, role: Role)
    ensures ParseRole(s) == Some(role) <==> s == RoleName(role)
  {
  }

  /** A stored user; times are milliseconds since the epoch. */
  datatype UserRecord = UserRecord(id: nat, email: string, role: Role, createdAt: int, lastLogin: int)

  /** The document handed to `User.create`; an absent field is None. */
  datatype UserFields = UserFields(email: Option<string>, role: Option<string>, lastLogin: Option<int>)

  /**
   * Schema casting and validation for a new user at time `now`: the email is
   * required and normalised, the role must be "user" or "admin" and defaults
   * to "user", and `lastLogin` and `createdAt` default to `now`.
   */
  function CreateUser(id: nat, f: UserFields, now: int): (r: Result<UserRecord, string>)
    ensures r.Success? <==>
      f.email.Some? && Normalize(f.email.value) != [] && (f.role.None? || ParseRole(f.role.value).Some?)
    ensures r.Success? ==>
      && r.value.id == id && r.value.email == Normalize(f.email.value)
      && (f.role.None? ==> r.value.role == UserRole)
      && (f.role.Some? ==> RoleName(r.value.role) == f.role.value)
      && r.value.createdAt == now
      && r.value.lastLogin == (if f.lastLogin.Some? then f.lastLogin.value else now)
  {
    if f.email.None? || Normalize(f.email.value) == [] then Failure("email")
    else
      var role := if f.role.None? then Some(UserRole) else ParseRole(f.role.value);
      if role.None? then Failure("role")
      else
        var lastLogin := if f.lastLogin.Some? then f.lastLogin.value else now;
        Success(UserRecord(id, Normalize(f.email.value), role.value, now, lastLogin))
  }

  /** The user map: keyed by normalised email. */
  type Users = map<string, UserRecord>

  /**
   * The collection's invariant: every key is a normalised email and is the
   * email of its record, and object ids are distinct and below `nextId`.
   */
  ghost predicate UsersValid(users: Users, nextId: nat) {
    && (forall k :: k in users ==> users[k].email == k && Normalize(k) == k && users[k].id < nextId)
    && (forall k1, k2 :: k1 in users && k2 in users && k1 != k2 ==> users[k1].id != users[k2].id)
  }

  /** `User.findOne({ email })`: the filter goes through the same setters as a stored email. */
  function FindUser(users: Users, email: string): (r: Option<UserRecord>)
    ensures r.Some? <==> Normalize(email) in users
  {
    var key := Normalize(email);
    if key in users then Some(users[key]) else None
  }

  /** At most one user per email: two stored users with the same email are the same entry. */
  lemma {:induction false} UniqueEmail(users: Users, nextId: nat, k1: string, k2: string)
    requires UsersValid(users, nextId) && k1 in users && k2 in users
    requires Normalize(users[k1].email) == Normalize(users[k2].email)
    ensures k1 == k2 && users[k1] == users[k2]
  {
    NormalizeIdempotent(k1);
  }

  /** Adding a user created by `CreateUser` with the next id keeps the invariant. */
  lemma {:induction false} AddUserKeepsValid(users: Users, nextId: nat, u: UserRecord)
    requires UsersValid(users, nextId)
    requires u.id == nextId && Normalize(u.email) == u.email && u.email !in users
    ensures UsersValid(users[u.email := u], nextId + 1)
  {
    var users' := users[u.email := u];
    forall k | k in users' ensures users'[k].email == k && Normalize(k) == k && users'[k].id < nextId + 1 {
      if k != u.email {
        assert users'[k] == users[k];
      }
    }
    forall k1, k2 | k1 in users' && k2 in users' && k1 != k2 ensures users'[k1].id != users'[k2].id {
      if k1 != u.email && k2 != u.email {
        assert users'[k1] == users[k1] && users'[k2] == users[k2];
      }
    }
  }

  /** A user created from an email gets a normalised email, hence a valid key. */
  lemma {:induction false} CreatedEmailIsKey(id: nat, f: UserFields, now: int)
    requires CreateUser(id, f, now).Success?
    ensures Normalize(CreateUser(id, f, now).value.email) == CreateUser(id, f, now).value.email
  {
    NormalizeIdempotent(f.email.value);
  }

  /**
   * `findOneAndUpdate({ email }, { lastLogin: now }, { upsert: true, new: true })`:
   * an existing user gets `lastLogin = now` and keeps everything else; an
   * absent one is inserted with the next id, the default role and
   * `createdAt = lastLogin = now`. Update validators do not run, so no
   * required check applies here.
   */
  function UpsertLogin(users: Users, email: string, nextId: nat, now: int): (r: (Users, UserRecord))
    ensures var key := Normalize(email);
      && r.0 == users[key := r.1]
      && r.1.lastLogin == now
      && (key in users ==> r.1 == users[key].(lastLogin := now))
      && (key !in users ==> r.1 == UserRecord(nextId, key, UserRole, now, now))
  {
    var key := Normalize(email);
    var u := if key in users then users[key].(lastLogin := now) else UserRecord(nextId, key, UserRole, now, now);
    (users[key := u], u)
  }

  /** The upsert keeps the invariant, allocating an id only when it inserts. */
  lemma {:induction false} UpsertKeepsValid(users: Users, email: string, nextId: nat, now: int)
    requires UsersValid(users, nextId)
    ensures var key := Normalize(email);
      UsersValid(UpsertLogin(users, email, nextId, now).0, if key in users then nextId else nextId + 1)
  {
    var key := Normalize(email);
    NormalizeIdempotent(email);
    var (users', u) := UpsertLogin(users, email, nextId, now);
    if key in users {
      var next := nextId;
      assert u.id == users[key].id && u.email == key;
      forall k | k in users' ensures users'[k].email == k && Normalize(k) == k && users'[k].id < next {
        if k != key {
          assert users'[k] == users[k];
        }
      }
      forall k1, k2 | k1 in users' && k2 in users' && k1 != k2 ensures users'[k1].id != users'[k2].id {
        assert users'[k1].id == users[k1].id && users'[k2].id == users[k2].id;
      }
    } else {
      AddUserKeepsValid(users, nextId, u);
    }
  }
}
