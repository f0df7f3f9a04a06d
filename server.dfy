/**
 * The server-side state the authentication and history routes share: the
 * pending-code records, the user map keyed by normalised email, the cookie
 * jar of the client, the outbox standing for delivered emails, the prompt
 * history, the clock (milliseconds) and the object-id allocator.
 */
module AppServer {
  import opened Wrappers
  import opened Text
  import opened OtpModel
  import opened UserModel
  import opened HistoryModel
  import opened Session

  /** One OTP email handed to the mailer: the address as the client sent it, and the code. */
  datatype Mail = Mail(to: string, code: string)

  /**
   * The abstract email check stands for a syntactic validator; no address it
   * accepts is blank once normalised.
   */
  ghost predicate EmailCheckSound(isEmail: string -> bool) {
    forall e :: isEmail(e) ==> Normalize(e) != []
  }

  /** The database part of the server state: the three collections and the id allocator. */
  datatype Store = Store(otps: seq<OtpRecord>, users: Users, history: seq<HistoryRecord>, nextId: nat)

  /**
   * The database invariant: users keyed by normalised email with distinct
   * ids, at most one pending code per address, every stored id below the
   * allocator, and pending codes keyed by normalised email.
   */
  ghost predicate StoreValid(st: Store) {
    && UsersValid(st.users, st.nextId)
    && AtMostOnePerEmail(st.otps)
    && (forall k :: 0 <= k < |st.otps| ==> st.otps[k].id < st.nextId && Normalize(st.otps[k].email) == st.otps[k].email)
    && (forall k :: 0 <= k < |st.history| ==> st.history[k].id < st.nextId)
  }

  /** The user record `User.create({ email })` stores at time `now`. */
  function NewUser(id: nat, email: string, now: int): UserRecord {
    UserRecord(id, Normalize(email), UserRole, now, now)
  }

  /**
   * `findOne` then, when absent, `create`: the store afterwards has a user
   * for the address. An existing user is left untouched; otherwise exactly
   * one user is added, the record the schema builds from the address alone.
   */
  function WithUser(st: Store, email: string, now: int): (r: Store)
    ensures Normalize(email) in r.users
    ensures r.otps == st.otps && r.history == st.history
    ensures Normalize(email) in st.users ==> r == st
    ensures Normalize(email) !in st.users ==>
      && |r.users| == |st.users| + 1
      && (forall k :: k in st.users ==> k in r.users && r.users[k] == st.users[k])
      && (Normalize(email) != [] ==>
            CreateUser(st.nextId, UserFields(Some(email), None, None), now) == Success(r.users[Normalize(email)]))
  {
    var key := Normalize(email);
    if key in st.users then st
    else st.(users := st.users[key := NewUser(st.nextId, email, now)], nextId := st.nextId + 1)
  }

  /** `Otp.deleteMany({ email })`. */
  function WithoutCodes(st: Store, key: string): Store {
    st.(otps := Evict(st.otps, key))
  }

  /** `Otp.create({ email, code, expiresAt })`: the record is appended with the next id. */
  function WithCode(st: Store, key: string, code: string, expiresAt: int): Store {
    st.(otps := st.otps + [OtpRecord(st.nextId, key, code, expiresAt)], nextId := st.nextId + 1)
  }

  lemma {:induction false} WithUserKeepsValid(st: Store, email: string, now: int)
    requires StoreValid(st) && Normalize(email) != []
    ensures StoreValid(WithUser(st, email, now))
  {
    if Normalize(email) !in st.users {
      NormalizeIdempotent(email);
      AddUserKeepsValid(st.users, st.nextId, NewUser(st.nextId, email, now));
    }
  }

  lemma WithoutCodesKeepsValid(st: Store, key: string)
    requires StoreValid(st)
    ensures StoreValid(WithoutCodes(st, key))
  {
    EvictKeepsAtMostOne(st.otps, key);
  }

  /** Issuing a code after the eviction keeps the invariant. */
  lemma {:induction false} IssueKeepsValid(st: Store, key: string, code: string, expiresAt: int)
    requires StoreValid(st) && Normalize(key) == key
    ensures StoreValid(WithCode(WithoutCodes(st, key), key, code, expiresAt))
  {
    var rec := OtpRecord(st.nextId, key, code, expiresAt);
    IssueLeavesOneRecord(st.otps, rec);
    var st' := WithCode(WithoutCodes(st, key), key, code, expiresAt);
    assert st'.otps == Evict(st.otps, key) + [rec];
    forall k | 0 <= k < |st'.otps|
      ensures st'.otps[k].id < st'.nextId && Normalize(st'.otps[k].email) == st'.otps[k].email
    {
      if k < |st'.otps| - 1 {
        assert st'.otps[k] in st.otps;
      }
    }
  }

  /** `Otp.deleteOne({ _id })` for the record at index i. */
  function WithoutCodeAt(st: Store, i: nat): Store
    requires i < |st.otps|
  {
    st.(otps := RemoveAt(st.otps, i))
  }

  /**
   * `User.findOneAndUpdate({ email }, { lastLogin }, { upsert: true })`:
   * an id is allocated only when the user is inserted.
   */
  function WithLogin(st: Store, email: string, now: int): (r: Store)
    ensures Normalize(email) in r.users && r.users[Normalize(email)].lastLogin == now
    ensures r.otps == st.otps && r.history == st.history
  {
    var key := Normalize(email);
    st.(users := UpsertLogin(st.users, email, st.nextId, now).0,
        nextId := if key in st.users then st.nextId else st.nextId + 1)
  }

  lemma {:induction false} WithoutCodeAtKeepsValid(st: Store, i: nat)
    requires StoreValid(st) && i < |st.otps|
    ensures StoreValid(WithoutCodeAt(st, i))
  {
    RemoveAtKeepsAtMostOne(st.otps, i);
    var r := RemoveAt(st.otps, i);
    forall k | 0 <= k < |r| ensures r[k].id < st.nextId && Normalize(r[k].email) == r[k].email {
      if k < i {
        assert r[k] == st.otps[k];
      } else {
        assert r[k] == st.otps[k + 1];
      }
    }
  }

  lemma {:induction false} WithLoginKeepsValid(st: Store, email: string, now: int)
    requires StoreValid(st)
    ensures StoreValid(WithLogin(st, email, now))
  {
    UpsertKeepsValid(st.users, email, st.nextId, now);
  }

  class Server {
    var otps: seq<OtpRecord>
    var users: Users
    var cookies: Jar
    var outbox: seq<Mail>
    var history: seq<HistoryRecord>
    var now: int
    /** Object ids are drawn from this counter; every stored id is below it. */
    var nextId: nat
    const key: Secret
    const production: bool
    const isEmail: string -> bool

    ghost predicate Valid()
      reads this
    {
      StoreValid(Snapshot()) && EmailCheckSound(isEmail)
    }

    /** The database state as a value. */
    function Snapshot(): Store
      reads this
    {
      Store(otps, users, history, nextId)
    }

    /** Process start with a loaded secret: empty stores and an empty jar. */
    constructor (key: Secret, production: bool, isEmail: string -> bool, startTime: int)
      requires EmailCheckSound(isEmail)
      ensures Valid()
      ensures this.key == key && this.production == production && this.isEmail == isEmail
      ensures otps == [] && users == map[] && cookies == map[] && outbox == [] && history == []
      ensures now == startTime && nextId == 0
    {
      this.key := key;
      this.production := production;
      this.isEmail := isEmail;
      otps, users, cookies, outbox, history := [], map[], map[], [], [];
      now, nextId := startTime, 0;
    }

    /** `getSession()` on the current jar and clock. */
    function CurrentSession(): Option<Claims>
      reads this
    {
      GetSession(cookies, key, now)
    }

    /** `setSessionCookie(token)`: only the "session" entry changes. */
    method SetSessionCookie(token: Token)
      modifies this`cookies
      ensures cookies == old(cookies)[CookieName := SessionCookie(token, production)]
    {
      cookies := cookies[CookieName := SessionCookie(token, production)];
    }

    /** `clearSessionCookie()`: the "session" entry is gone, every other cookie stays. */
    method ClearSessionCookie()
      modifies this`cookies
      ensures cookies == old(cookies) - {CookieName}
      ensures CookieName !in cookies
      ensures CurrentSession().None?
    {
      cookies := cookies - {CookieName};
    }

    /** `User.create({ email })` for an address with no user yet. */
    method CreateUserFor(email: string)
      requires Normalize(email) != [] && Normalize(email) !in users
      modifies this`users, this`nextId
      ensures Snapshot() == WithUser(old(Snapshot()), email, now)
    {
      var created := CreateUser(nextId, UserFields(Some(email), None, None), now).value;
      users := users[created.email := created];
      nextId := nextId + 1;
    }

    /** `Otp.deleteMany({ email })`: the filter is normalised like a stored email. */
    method DeleteCodes(email: string)
      modifies this`otps
      ensures Snapshot() == WithoutCodes(old(Snapshot()), Normalize(email))
    {
      otps := Evict(otps, Normalize(email));
    }

    /** `Otp.create({ email, code, expiresAt })` with the next id. */
    method CreateCode(email: string, code: string, expiresAt: int)
      requires Normalize(email) != [] && code != []
      modifies this`otps, this`nextId
      ensures Snapshot() == WithCode(old(Snapshot()), Normalize(email), code, expiresAt)
    {
      var rec := CreateOtp(nextId, OtpFields(Some(email), Some(code), Some(expiresAt))).value;
      otps := otps + [rec];
      nextId := nextId + 1;
    }

    /** `Otp.deleteOne({ _id })` for the record at index i. */
    method DeleteCodeAt(i: nat)
      requires i < |otps|
      modifies this`otps
      ensures Snapshot() == WithoutCodeAt(old(Snapshot()), i)
    {
      otps := RemoveAt(otps, i);
    }

    /** The login upsert; returns the document as updated (`new: true`). */
    method UpsertUser(email: string) returns (u: UserRecord)
      modifies this`users, this`nextId
      ensures Snapshot() == WithLogin(old(Snapshot()), email, now)
      ensures u == users[Normalize(email)]
    {
      var key := Normalize(email);
      var inserted := key !in users;
      var result := UpsertLogin(users, email, nextId, now);
      users := result.0;
      u := result.1;
      if inserted {
        nextId := nextId + 1;
      }
    }

    /** Time passes. */
    method AdvanceClock(ms: nat)
      modifies this`now
      ensures now == old(now) + ms
    {
      now := now + ms;
    }

    /**
     * The TTL monitor considers record i: it is deleted only when its expiry
     * instant has been reached, and nothing else in the store changes.
     */
    method TtlExpire(i: nat) returns (removed: bool)
      requires Valid()
      modifies this`otps
      ensures Valid()
      ensures removed <==> i < |old(otps)| && TtlMayRemove(old(otps)[i], now)
      ensures removed ==> otps == RemoveAt(old(otps), i)
      ensures !removed ==> otps == old(otps)
    {
      removed := i < |otps| && TtlMayRemove(otps[i], now);
      if removed {
        RemoveAtKeepsAtMostOne(otps, i);
        otps := RemoveAt(otps, i);
      }
    }
  }

  /** Process start: the JWT_SECRET check runs first, and a missing secret stops the server from existing. */
  method Boot(env: Option<string>, production: bool, isEmail: string -> bool, startTime: int)
    returns (r: Result<Server, string>)
    requires EmailCheckSound(isEmail)
    ensures r.Failure? <==> LoadSecret(env).Failure?
    ensures r.Failure? ==> r.error == MissingSecretMessage
    ensures r.Success? ==> fresh(r.value) && r.value.Valid() && r.value.key == env.value
  {
    var secret := LoadSecret(env);
    if secret.Failure? {
      return Failure(secret.error);
    }
    var s := new Server(secret.value, production, isEmail, startTime);
    return Success(s);
  }
}
