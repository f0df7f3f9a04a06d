/**
 * POST /api/auth/verify-otp: check the address and the six-character code,
 * look up an unexpired record for them, delete it, upsert the user with a
 * fresh `lastLogin`, sign a session token for the user and set it as the
 * session cookie.
 */
module VerifyOtpRoute {
  import opened Wrappers
  import opened Text
  import opened OtpModel
  import opened UserModel
  import opened Session
  import opened Http
  import opened AppServer

  const InvalidEmailMessage := "Invalid email address"
  const OtpLengthMessage := "OTP must be 6 digits"
  const NoMatchMessage := "Invalid or expired OTP"
  const VerifyFailedMessage := "Verification failed. Please try again."
  const LoginMessage := "Login successful"

  /** The checked body. */
  datatype Credentials = Credentials(email: string, otp: string)

  /** The collaborator calls of the handler, in the order they run. */
  datatype Step = Connect | FindCode | DeleteCode | UpsertUser | SetCookie

  /** Which collaborator call throws, if any (it matters only if the call is made). */
  datatype Fault = NoFault | ThrowsAt(step: Step)

  /** The first issue for the "email" field, if any. */
  function EmailIssue(fields: map<string, Json>, isEmail: string -> bool): (r: Option<string>)
    ensures r.None? <==> StringField(fields, "email").Success? && isEmail(fields["email"].s)
  {
    match StringField(fields, "email")
    case Failure(e) => Some(e)
    case Success(email) => if isEmail(email) then None else Some(InvalidEmailMessage)
  }

  /** The first issue for the "otp" field, if any: the string must have exactly six characters. */
  function OtpIssue(fields: map<string, Json>): (r: Option<string>)
    ensures r.None? <==> StringField(fields, "otp").Success? && |fields["otp"].s| == 6
  {
    match StringField(fields, "otp")
    case Failure(e) => Some(e)
    case Success(otp) => if |otp| == 6 then None else Some(OtpLengthMessage)
  }

  /**
   * The body check; the reported issue is the first in schema order, so an
   * email problem hides an otp problem.
   */
  function Validate(body: Body, isEmail: string -> bool): (r: Result<Credentials, string>)
    requires !body.Unparsable?
    ensures r.Success? <==> body.Object? && EmailIssue(body.fields, isEmail).None? && OtpIssue(body.fields).None?
    ensures r.Success? ==> r.value == Credentials(body.fields["email"].s, body.fields["otp"].s) && |r.value.otp| == 6
    ensures body.Object? && EmailIssue(body.fields, isEmail).Some? ==> r == Failure(EmailIssue(body.fields, isEmail).value)
    ensures body.Object? && EmailIssue(body.fields, isEmail).None? && OtpIssue(body.fields).Some? ==> r == Failure(OtpIssue(body.fields).value)
    ensures body.NonObject? ==> r == Failure(NotAnObject(body.value))
  {
    match body
    case NonObject(v) => Failure(NotAnObject(v))
    case Object(fields) =>
      match EmailIssue(fields, isEmail)
      case Some(e) => Failure(e)
      case None =>
        match OtpIssue(fields)
        case Some(e) => Failure(e)
        case None => Success(Credentials(fields["email"].s, fields["otp"].s))
  }

  /** What one request leaves behind: the database, the token set as the cookie (if any), and the reply. */
  datatype Outcome = Outcome(store: Store, token: Option<Token>, reply: Reply)

  /** The user as the login reply shows it. */
  function View(u: UserRecord): UserView {
    UserView(u.id, u.email, u.role)
  }

  /** The claims signed into the token for a user. */
  function ClaimsOf(u: UserRecord): Claims {
    Claims(u.id, u.email, u.role)
  }

  /**
   * The work after a successful check. A step that throws has no effect;
   * the steps before it keep theirs.
   */
  function Verify(st: Store, now: int, key: Secret, c: Credentials, fault: Fault): Outcome {
    var failed := Reply(500, ErrorBody(VerifyFailedMessage));
    if fault == ThrowsAt(Connect) || fault == ThrowsAt(FindCode) then Outcome(st, None, failed)
    else match FindUsable(st.otps, Normalize(c.email), c.otp, now)
    case None => Outcome(st, None, Reply(400, ErrorBody(NoMatchMessage)))
    case Some(i) =>
      if fault == ThrowsAt(DeleteCode) then Outcome(st, None, failed)
      else
        var st1 := WithoutCodeAt(st, i);
        if fault == ThrowsAt(UpsertUser) then Outcome(st1, None, failed)
        else
          var st2 := WithLogin(st1, c.email, now);
          var u := st2.users[Normalize(c.email)];
          var token := CreateSession(ClaimsOf(u), key, now);
          if fault == ThrowsAt(SetCookie) then Outcome(st2, None, failed)
          else Outcome(st2, Some(token), Reply(200, LoginBody(LoginMessage, View(u))))
  }

  /** The whole request: a body that is not JSON throws, a failed check answers 400. */
  function Handle(st: Store, now: int, key: Secret, isEmail: string -> bool, body: Body, fault: Fault): Outcome {
    if body.Unparsable? then Outcome(st, None, Reply(500, ErrorBody(VerifyFailedMessage)))
    else match Validate(body, isEmail)
    case Failure(e) => Outcome(st, None, Reply(400, ErrorBody(e)))
    case Success(c) => Verify(st, now, key, c, fault)
  }

  /** The handler keeps the database invariant on every path. */
  lemma {:induction false} HandleKeepsValid(st: Store, now: int, key: Secret, isEmail: string -> bool, body: Body, fault: Fault)
    requires StoreValid(st)
    ensures StoreValid(Handle(st, now, key, isEmail, body, fault).store)
  {
    var o := Handle(st, now, key, isEmail, body, fault);
    if !body.Unparsable? && Validate(body, isEmail).Success? {
      var c := Validate(body, isEmail).value;
      assert o == Verify(st, now, key, c, fault);
      var found := FindUsable(st.otps, Normalize(c.email), c.otp, now);
      if fault == ThrowsAt(Connect) || fault == ThrowsAt(FindCode) || found.None? || fault == ThrowsAt(DeleteCode) {
        assert o.store == st;
      } else {
        var st1 := WithoutCodeAt(st, found.value);
        WithoutCodeAtKeepsValid(st, found.value);
        if fault == ThrowsAt(UpsertUser) {
          assert o.store == st1;
        } else {
          WithLoginKeepsValid(st1, c.email, now);
          assert o.store == WithLogin(st1, c.email, now);
        }
      }
    } else {
      assert o.store == st;
    }
  }

  /**
   * Login succeeds exactly when the body checks out, an unexpired record
   * holds that code for the normalised address, and no collaborator
   * throws; a cookie is set exactly then.
   */
  lemma {:induction false} LoginIff(st: Store, now: int, key: Secret, isEmail: string -> bool, body: Body, fault: Fault)
    ensures var o := Handle(st, now, key, isEmail, body, fault);
      && (o.reply.status == 200 <==>
            && !body.Unparsable? && Validate(body, isEmail).Success?
            && FindUsable(st.otps, Normalize(Validate(body, isEmail).value.email), Validate(body, isEmail).value.otp, now).Some?
            && fault == NoFault)
      && (o.token.Some? <==> o.reply.status == 200)
  {
    if !body.Unparsable? && Validate(body, isEmail).Success? {
      var c := Validate(body, isEmail).value;
      if FindUsable(st.otps, Normalize(c.email), c.otp, now).Some? && fault.ThrowsAt? {
        match fault.step
        case Connect =>
        case FindCode =>
        case DeleteCode =>
        case UpsertUser =>
        case SetCookie =>
      }
    }
  }

  /**
   * The error replies: a body that is not JSON throws and answers 500 with
   * nothing changed; a failed check answers 400 with the first issue and
   * nothing changed; 400 otherwise comes only from a code that does not
   * match; a collaborator that throws at a step that runs answers 500; and
   * every reply other than 200 and 400 is that 500.
   */
  lemma {:induction false} ErrorReplies(st: Store, now: int, key: Secret, isEmail: string -> bool, body: Body, fault: Fault)
    ensures var o := Handle(st, now, key, isEmail, body, fault);
      && (body.Unparsable? ==> o == Outcome(st, None, Reply(500, ErrorBody(VerifyFailedMessage))))
      && (!body.Unparsable? && Validate(body, isEmail).Failure? ==>
            o == Outcome(st, None, Reply(400, ErrorBody(Validate(body, isEmail).error))))
      && (o.reply.status == 400 <==>
            && !body.Unparsable?
            && (Validate(body, isEmail).Failure?
                || (&& fault != ThrowsAt(Connect) && fault != ThrowsAt(FindCode)
                    && FindUsable(st.otps, Normalize(Validate(body, isEmail).value.email), Validate(body, isEmail).value.otp, now).None?)))
      && (!body.Unparsable? && Validate(body, isEmail).Success? && fault.ThrowsAt? &&
          (fault == ThrowsAt(Connect) || fault == ThrowsAt(FindCode) ||
           FindUsable(st.otps, Normalize(Validate(body, isEmail).value.email), Validate(body, isEmail).value.otp, now).Some?) ==>
            o.reply == Reply(500, ErrorBody(VerifyFailedMessage)))
      && (o.reply.status != 200 && o.reply.status != 400 ==> o.reply == Reply(500, ErrorBody(VerifyFailedMessage)))
  {
    if !body.Unparsable? && Validate(body, isEmail).Success? {
      var c := Validate(body, isEmail).value;
      if fault.ThrowsAt? {
        match fault.step
        case Connect =>
        case FindCode =>
        case DeleteCode =>
        case UpsertUser =>
        case SetCookie =>
      }
    }
  }

  /** A wrong, expired or already used code answers 400 and changes nothing. */
  lemma NoMatchChangesNothing(st: Store, now: int, key: Secret, c: Credentials, fault: Fault)
    requires FindUsable(st.otps, Normalize(c.email), c.otp, now).None?
    requires fault != ThrowsAt(Connect) && fault != ThrowsAt(FindCode)
    ensures Verify(st, now, key, c, fault) == Outcome(st, None, Reply(400, ErrorBody(NoMatchMessage)))
  {
  }

  /**
   * After a successful login: the code is spent (no code works for the
   * address until a new one is issued), the user is stored under the
   * normalised address with `lastLogin` now, and the reply shows that user.
   */
  lemma {:induction false} LoginConsumesCode(
    st: Store, now: int, key: Secret, c: Credentials, fault: Fault, code: string, later: int)
    requires StoreValid(st)
    requires Verify(st, now, key, c, fault).reply.status == 200
    ensures var o := Verify(st, now, key, c, fault);
      && FindUsable(o.store.otps, Normalize(c.email), code, later).None?
      && Normalize(c.email) in o.store.users
      && o.store.users[Normalize(c.email)].lastLogin == now
      && o.reply.body == LoginBody(LoginMessage, View(o.store.users[Normalize(c.email)]))
  {
    ConsumedCodeFails(st.otps, Normalize(c.email), c.otp, now, code, later);
  }

  /**
   * The cookie set by a successful login resolves, through `getSession`,
   * to the stored user's claims for the token's lifetime (less the
   * sub-second part the issue time drops), and to nothing from seven days on.
   */
  lemma {:induction false} LoginYieldsSession(
    st: Store, now: int, key: Secret, c: Credentials, fault: Fault, jar: Jar, production: bool, later: int)
    requires StoreValid(st)
    requires Verify(st, now, key, c, fault).reply.status == 200
    ensures var o := Verify(st, now, key, c, fault);
      var jar' := jar[CookieName := SessionCookie(o.token.value, production)];
      var u := o.store.users[Normalize(c.email)];
      && (now <= later < now + (TokenLifetime - 1) * 1000 ==> GetSession(jar', key, later) == Some(ClaimsOf(u)))
      && (later >= now + TokenLifetime * 1000 ==> GetSession(jar', key, later).None?)
      && u.email == Normalize(c.email)
  {
    var o := Verify(st, now, key, c, fault);
    var u := o.store.users[Normalize(c.email)];
    if now <= later < now + (TokenLifetime - 1) * 1000 {
      ValidForSevenDays(ClaimsOf(u), key, now, later);
    }
    if later >= now + TokenLifetime * 1000 {
      ExpiredAfterSevenDays(ClaimsOf(u), key, now, later);
    }
    var i := FindUsable(st.otps, Normalize(c.email), c.otp, now).value;
    var st1 := WithoutCodeAt(st, i);
    WithoutCodeAtKeepsValid(st, i);
    assert u == UpsertLogin(st1.users, c.email, st1.nextId, now).1;
  }

  /** Replaying a request that logged in fails: the same body now answers 400. */
  lemma {:induction false} ReplayFails(
    st: Store, now: int, key: Secret, isEmail: string -> bool, body: Body, fault: Fault, later: int, fault': Fault)
    requires StoreValid(st)
    requires Handle(st, now, key, isEmail, body, fault).reply.status == 200
    requires fault' != ThrowsAt(Connect) && fault' != ThrowsAt(FindCode)
    ensures var o := Handle(st, now, key, isEmail, body, fault);
      Handle(o.store, later, key, isEmail, body, fault').reply == Reply(400, ErrorBody(NoMatchMessage))
  {
    var c := Validate(body, isEmail).value;
    LoginConsumesCode(st, now, key, c, fault, c.otp, later);
  }

  /**
   * The handler on the server: the database and the reply are those
   * `Handle` gives, and the session cookie is set exactly when it yields a
   * token; the clock, the outbox and the history are untouched.
   */
  method Post(s: Server, body: Body, fault: Fault) returns (reply: Reply)
    requires s.Valid()
    modifies s
    ensures var o := Handle(old(s.Snapshot()), old(s.now), s.key, s.isEmail, body, fault);
      && s.Snapshot() == o.store
      && s.cookies == (if o.token.Some? then old(s.cookies)[CookieName := SessionCookie(o.token.value, s.production)] else old(s.cookies))
      && reply == o.reply
    ensures s.now == old(s.now) && s.outbox == old(s.outbox)
    ensures s.Valid()
  {
    HandleKeepsValid(s.Snapshot(), s.now, s.key, s.isEmail, body, fault);
    if body.Unparsable? {
      return Reply(500, ErrorBody(VerifyFailedMessage));
    }
    var validation := Validate(body, s.isEmail);
    if validation.Failure? {
      return Reply(400, ErrorBody(validation.error));
    }
    reply := LogIn(s, validation.value, fault);
  }

  /** The steps after the check, in the order the handler runs them. */
  method LogIn(s: Server, c: Credentials, fault: Fault) returns (reply: Reply)
    modifies s
    ensures var o := Verify(old(s.Snapshot()), old(s.now), s.key, c, fault);
      && s.Snapshot() == o.store
      && s.cookies == (if o.token.Some? then old(s.cookies)[CookieName := SessionCookie(o.token.value, s.production)] else old(s.cookies))
      && reply == o.reply
    ensures s.now == old(s.now) && s.outbox == old(s.outbox)
  {
    var failed := Reply(500, ErrorBody(VerifyFailedMessage));
    if fault == ThrowsAt(Connect) || fault == ThrowsAt(FindCode) {
      return failed;
    }
    var found := FindUsable(s.otps, Normalize(c.email), c.otp, s.now);
    if found.None? {
      return Reply(400, ErrorBody(NoMatchMessage));
    }
    if fault == ThrowsAt(DeleteCode) {
      return failed;
    }
    s.DeleteCodeAt(found.value);
    if fault == ThrowsAt(UpsertUser) {
      return failed;
    }
    var u := s.UpsertUser(c.email);
    var token := CreateSession(ClaimsOf(u), s.key, s.now);
    if fault == ThrowsAt(SetCookie) {
      return failed;
    }
    s.SetSessionCookie(token);
    return Reply(200, LoginBody(LoginMessage, View(u)));
  }
}
