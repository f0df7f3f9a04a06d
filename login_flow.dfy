/**
 * The two authentication routes together: the code mailed by a successful
 * send-otp request logs the address in, once, for ten minutes.
 */
module LoginFlow {
  import opened Wrappers
  import opened Text
  import opened OtpModel
  import opened OtpCode
  import opened Session
  import opened Http
  import opened AppServer
  import SendOtpRoute
  import VerifyOtpRoute

  /** The body a client posts to verify-otp with the address and code from a mail. */
  function CodeEntry(m: Mail): Body {
    Object(map["email" := JString(m.to), "otp" := JString(m.code)])
  }

  /** A mail the send route hands over carries a six-character code for an address the email check accepted. */
  lemma {:induction false} SentMailChecksOut(st: Store, now: int, isEmail: string -> bool, body: Body, r: Word32)
    requires SendOtpRoute.Handle(st, now, isEmail, body, r, SendOtpRoute.NoFault).reply.status == 200
    ensures var m := SendOtpRoute.Handle(st, now, isEmail, body, r, SendOtpRoute.NoFault).mail;
      m.Some? && isEmail(m.value.to) && |m.value.code| == 6
  {
    SendOtpRoute.SuccessIff(st, now, isEmail, body, r, SendOtpRoute.NoFault);
  }

  /** The entry built from such a mail passes the verify route's body check unchanged. */
  lemma {:induction false} EntryChecksOut(m: Mail, isEmail: string -> bool)
    requires isEmail(m.to) && |m.code| == 6
    ensures VerifyOtpRoute.Validate(CodeEntry(m), isEmail) == Success(VerifyOtpRoute.Credentials(m.to, m.code))
  {
    var entry := CodeEntry(m);
    assert "email" != "otp";
    assert entry.fields["email"] == JString(m.to) && entry.fields["otp"] == JString(m.code);
  }

  /**
   * Entering the mailed code within ten minutes logs in as the address's
   * user and mints a session for it; entering it again fails.
   */
  lemma {:induction false} MailedCodeLogsInOnce(
    st: Store, now: int, isEmail: string -> bool, body: Body, r: Word32, key: Secret, later: int, again: int)
    requires StoreValid(st) && EmailCheckSound(isEmail)
    requires SendOtpRoute.Handle(st, now, isEmail, body, r, SendOtpRoute.NoFault).reply.status == 200
    requires later < now + SendOtpRoute.OtpLifetimeMs
    ensures var sent := SendOtpRoute.Handle(st, now, isEmail, body, r, SendOtpRoute.NoFault);
      && sent.mail.Some?
      && var entry := CodeEntry(sent.mail.value);
      && var login := VerifyOtpRoute.Handle(sent.store, later, key, isEmail, entry, VerifyOtpRoute.NoFault);
      && login.reply.status == 200
      && login.token.Some? && login.token.value.claims.email == Normalize(sent.mail.value.to)
      && VerifyOtpRoute.Handle(login.store, again, key, isEmail, entry, VerifyOtpRoute.NoFault).reply.status == 400
  {
    var sent := SendOtpRoute.Handle(st, now, isEmail, body, r, SendOtpRoute.NoFault);
    SentMailChecksOut(st, now, isEmail, body, r);
    var m := sent.mail.value;
    SendOtpRoute.MailedCodeIsTheOnlyUsable(st, now, isEmail, body, r, SendOtpRoute.NoFault, m.code, later);
    SendOtpRoute.HandleKeepsValid(st, now, isEmail, body, r, SendOtpRoute.NoFault);
    var entry := CodeEntry(m);
    EntryChecksOut(m, isEmail);
    var c := VerifyOtpRoute.Credentials(m.to, m.code);
    VerifyOtpRoute.LoginIff(sent.store, later, key, isEmail, entry, VerifyOtpRoute.NoFault);
    var login := VerifyOtpRoute.Handle(sent.store, later, key, isEmail, entry, VerifyOtpRoute.NoFault);
    assert login == VerifyOtpRoute.Verify(sent.store, later, key, c, VerifyOtpRoute.NoFault);
    VerifyOtpRoute.LoginYieldsSession(sent.store, later, key, c, VerifyOtpRoute.NoFault, map[], false, later);
    VerifyOtpRoute.ReplayFails(sent.store, later, key, isEmail, entry, VerifyOtpRoute.NoFault, again, VerifyOtpRoute.NoFault);
  }
}
