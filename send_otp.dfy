/**
 * POST /api/auth/send-otp: validate the address, make sure a user exists,
 * evict the address's earlier codes, store a fresh code with a ten-minute
 * lifetime, and hand the code to the mailer. A collaborator that throws
 * ends the request with a 500; whatever ran before it stays done.
 */
module SendOtpRoute {
  import opened Wrappers
  import opened Text
  import opened OtpCode
  import opened OtpModel
  import opened UserModel
  import opened Http
  import opened AppServer

  const InvalidEmailMessage := "Invalid email address"
  const SendFailedMessage := "Failed to send OTP. Please try again."
  const SentMessage := "OTP sent successfully"

  /** Ten minutes, in milliseconds. */
  const OtpLifetimeMs := 10 * 60 * 1000

  /** The collaborator calls of the handler, in the order they run. */
  datatype Step = Connect | LookUpUser | InsertUser | EvictCodes | InsertCode | SendMail

  /** Which collaborator call throws, if any (it matters only if the call is made). */
  datatype Fault = NoFault | ThrowsAt(step: Step)

  /** The body check: an object whose "email" is a string accepted by the email check. */
  function Validate(body: Body, isEmail: string -> bool): (r: Result<string, string>)
    requires !body.Unparsable?
    ensures r.Success? <==> body.Object? && StringField(body.fields, "email").Success? && isEmail(body.fields["email"].s)
    ensures r.Success? ==> r.value == body.fields["email"].s
    ensures body.NonObject? ==> r == Failure(NotAnObject(body.value))
    ensures body.Object? && StringField(body.fields, "email").Success? && r.Failure? ==> r.error == InvalidEmailMessage
  {
    match body
    case NonObject(v) => Failure(NotAnObject(v))
    case Object(fields) =>
      match StringField(fields, "email")
      case Failure(e) => Failure(e)
      case Success(email) => if isEmail(email) then Success(email) else Failure(InvalidEmailMessage)
  }

  /** What one request leaves behind: the database, the mail handed over (if any), and the reply. */
  datatype Outcome = Outcome(store: Store, mail: Option<Mail>, reply: Reply)

  /**
   * The work after a successful check, for the address as the client wrote
   * it: each step's effect stays when a later step throws.
   */
  function Issue(st: Store, now: int, email: string, r: Word32, fault: Fault): Outcome {
    var failed := Reply(500, ErrorBody(SendFailedMessage));
    var key := Normalize(email);
    if fault == ThrowsAt(Connect) || fault == ThrowsAt(LookUpUser) then Outcome(st, None, failed)
    else if key !in st.users && fault == ThrowsAt(InsertUser) then Outcome(st, None, failed)
    else
      var st1 := WithUser(st, email, now);
      if fault == ThrowsAt(EvictCodes) then Outcome(st1, None, failed)
      else
        var st2 := WithoutCodes(st1, key);
        if fault == ThrowsAt(InsertCode) then Outcome(st2, None, failed)
        else
          var code := GenerateOtp(r);
          var st3 := WithCode(st2, key, code, now + OtpLifetimeMs);
          if fault == ThrowsAt(SendMail) then Outcome(st3, None, failed)
          else Outcome(st3, Some(Mail(email, code)), Reply(200, MessageBody(SentMessage)))
  }

  /** The whole request: a body that is not JSON throws, a failed check answers 400. */
  function Handle(st: Store, now: int, isEmail: string -> bool, body: Body, r: Word32, fault: Fault): Outcome {
    if body.Unparsable? then Outcome(st, None, Reply(500, ErrorBody(SendFailedMessage)))
    else match Validate(body, isEmail)
    case Failure(e) => Outcome(st, None, Reply(400, ErrorBody(e)))
    case Success(email) => Issue(st, now, email, r, fault)
  }

  /** The handler keeps the database invariant on every path, including the failing ones. */
  lemma {:induction false} HandleKeepsValid(st: Store, now: int, isEmail: string -> bool, body: Body, r: Word32, fault: Fault)
    requires StoreValid(st) && EmailCheckSound(isEmail)
    ensures StoreValid(Handle(st, now, isEmail, body, r, fault).store)
  {
    var o := Handle(st, now, isEmail, body, r, fault);
    if !body.Unparsable? && Validate(body, isEmail).Success? {
      var email := Validate(body, isEmail).value;
      var key := Normalize(email);
      if fault == ThrowsAt(Connect) || fault == ThrowsAt(LookUpUser) || (key !in st.users && fault == ThrowsAt(InsertUser)) {
        assert o.store == st;
      } else {
        NormalizeIdempotent(email);
        WithUserKeepsValid(st, email, now);
        var st1 := WithUser(st, email, now);
        if fault == ThrowsAt(EvictCodes) {
          assert o.store == st1;
        } else if fault == ThrowsAt(InsertCode) {
          WithoutCodesKeepsValid(st1, key);
          assert o.store == WithoutCodes(st1, key);
        } else {
          IssueKeepsValid(st1, key, GenerateOtp(r), now + OtpLifetimeMs);
          assert o.store == WithCode(WithoutCodes(st1, key), key, GenerateOtp(r), now + OtpLifetimeMs);
        }
      }
    } else {
      assert o.store == st;
    }
  }

  /**
   * The request answers 200 exactly when the body is a valid address and no
   * collaborator that is actually called throws (`User.create` is called
   * only for a new address); a mail is handed over exactly then.
   */
  lemma SuccessIff(st: Store, now: int, isEmail: string -> bool, body: Body, r: Word32, fault: Fault)
    ensures var o := Handle(st, now, isEmail, body, r, fault);
      && (o.reply.status == 200 <==>
            !body.Unparsable? && Validate(body, isEmail).Success?
            && (fault == NoFault || (fault == ThrowsAt(InsertUser) && Normalize(Validate(body, isEmail).value) in st.users)))
      && (o.mail.Some? <==> o.reply.status == 200)
      && (o.reply.status == 400 <==> !body.Unparsable? && Validate(body, isEmail).Failure?)
      && (o.reply.status == 200 ==> o.reply.body == MessageBody(SentMessage))
      && (o.reply.status != 200 && o.reply.status != 400 ==> o.reply == Reply(500, ErrorBody(SendFailedMessage)))
  {
    var o := Handle(st, now, isEmail, body, r, fault);
    if !body.Unparsable? && Validate(body, isEmail).Success? {
      var email := Validate(body, isEmail).value;
      var key := Normalize(email);
      if fault == ThrowsAt(Connect) || fault == ThrowsAt(LookUpUser) || (key !in st.users && fault == ThrowsAt(InsertUser)) {
        assert o.reply.status == 500;
      } else if fault == ThrowsAt(EvictCodes) || fault == ThrowsAt(InsertCode) || fault == ThrowsAt(SendMail) {
        assert o.reply.status == 500;
      } else {
        assert fault.NoFault? || fault.step == InsertUser;
      }
    }
  }

  /** A body that is not JSON or fails the check changes nothing in the database. */
  lemma RejectedChangesNothing(st: Store, now: int, isEmail: string -> bool, body: Body, r: Word32, fault: Fault)
    requires body.Unparsable? || Validate(body, isEmail).Failure?
    ensures Handle(st, now, isEmail, body, r, fault).store == st
  {
  }

  /**
   * After a successful request the user exists, and the mailed code is the
   * only usable code for the address: it is accepted until ten minutes after
   * the request and any other code is refused.
   */
  lemma {:induction false} MailedCodeIsTheOnlyUsable(
    st: Store, now: int, isEmail: string -> bool, body: Body, r: Word32, fault: Fault, code: string, later: int)
    requires Handle(st, now, isEmail, body, r, fault).reply.status == 200
    ensures var o := Handle(st, now, isEmail, body, r, fault);
      && o.mail.Some?
      && Normalize(o.mail.value.to) in o.store.users
      && (FindUsable(o.store.otps, Normalize(o.mail.value.to), code, later).Some? <==>
            code == o.mail.value.code && later < now + OtpLifetimeMs)
  {
    var email := Validate(body, isEmail).value;
    var key := Normalize(email);
    var st1 := WithUser(st, email, now);
    var rec := OtpRecord(st1.nextId, key, GenerateOtp(r), now + OtpLifetimeMs);
    IssuedCodeIsTheOnlyUsable(st1.otps, rec, code, later);
  }

  /**
   * No rollback: when storing the new code throws, the address's earlier
   * codes are already gone, so no code works for it until a later request
   * succeeds.
   */
  lemma {:induction false} FailedInsertLeavesNoCode(
    st: Store, now: int, isEmail: string -> bool, body: Body, r: Word32, code: string, later: int)
    requires !body.Unparsable? && Validate(body, isEmail).Success?
    ensures var key := Normalize(Validate(body, isEmail).value);
      FindUsable(Handle(st, now, isEmail, body, r, ThrowsAt(InsertCode)).store.otps, key, code, later).None?
  {
  }

  /**
   * No rollback either when the mail fails: the new code stays stored and
   * is the only usable one for the address for ten minutes, though the
   * reply is the 500 and no mail went out.
   */
  lemma {:induction false} FailedSendKeepsCode(
    st: Store, now: int, isEmail: string -> bool, body: Body, r: Word32, code: string, later: int)
    requires !body.Unparsable? && Validate(body, isEmail).Success?
    ensures var o := Handle(st, now, isEmail, body, r, ThrowsAt(SendMail));
      var key := Normalize(Validate(body, isEmail).value);
      && o.reply == Reply(500, ErrorBody(SendFailedMessage))
      && o.mail.None?
      && key in o.store.users
      && (FindUsable(o.store.otps, key, code, later).Some? <==> code == GenerateOtp(r) && later < now + OtpLifetimeMs)
  {
    var email := Validate(body, isEmail).value;
    var key := Normalize(email);
    var st1 := WithUser(st, email, now);
    var rec := OtpRecord(st1.nextId, key, GenerateOtp(r), now + OtpLifetimeMs);
    IssuedCodeIsTheOnlyUsable(st1.otps, rec, code, later);
  }

  /**
   * The handler on the server: the database, the outbox and the reply are
   * those `Handle` gives; the clock, the jar and the history are untouched.
   */
  method Post(s: Server, body: Body, r: Word32, fault: Fault) returns (reply: Reply)
    requires s.Valid()
    modifies s
    ensures var o := Handle(old(s.Snapshot()), old(s.now), s.isEmail, body, r, fault);
      && s.Snapshot() == o.store
      && s.outbox == old(s.outbox) + (if o.mail.Some? then [o.mail.value] else [])
      && reply == o.reply
    ensures s.now == old(s.now) && s.cookies == old(s.cookies)
    ensures s.Valid()
  {
    HandleKeepsValid(s.Snapshot(), s.now, s.isEmail, body, r, fault);
    if body.Unparsable? {
      return Reply(500, ErrorBody(SendFailedMessage));
    }
    var validation := Validate(body, s.isEmail);
    if validation.Failure? {
      return Reply(400, ErrorBody(validation.error));
    }
    reply := IssueCode(s, validation.value, r, fault);
  }

  /** The steps after the check, in the order the handler runs them. */
  method IssueCode(s: Server, email: string, r: Word32, fault: Fault) returns (reply: Reply)
    requires Normalize(email) != []
    modifies s
    ensures var o := Issue(old(s.Snapshot()), old(s.now), email, r, fault);
      && s.Snapshot() == o.store
      && s.outbox == old(s.outbox) + (if o.mail.Some? then [o.mail.value] else [])
      && reply == o.reply
    ensures s.now == old(s.now) && s.cookies == old(s.cookies)
  {
    var failed := Reply(500, ErrorBody(SendFailedMessage));
    if fault == ThrowsAt(Connect) || fault == ThrowsAt(LookUpUser) {
      return failed;
    }
    var user := FindUser(s.users, email);
    if user.None? {
      if fault == ThrowsAt(InsertUser) {
        return failed;
      }
      s.CreateUserFor(email);
    }
    if fault == ThrowsAt(EvictCodes) {
      return failed;
    }
    s.DeleteCodes(email);
    var code := GenerateOtp(r);
    var expiresAt := s.now + OtpLifetimeMs;
    if fault == ThrowsAt(InsertCode) {
      return failed;
    }
    s.CreateCode(email, code, expiresAt);
    if fault == ThrowsAt(SendMail) {
      return failed;
    }
    s.outbox := s.outbox + [Mail(email, code)];
    return Reply(200, MessageBody(SentMessage));
  }
}
