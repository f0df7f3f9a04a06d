/**
 * POST /api/enhance: session gate, body check, one call to the enhancement
 * service, and one new history record for the signed-in user.
 */
module EnhanceRoute {
  import opened Wrappers
  import opened HistoryModel
  import opened Session
  import opened Http
  import opened AppServer

  const UnauthorizedMessage := "Unauthorized. Please log in."
  const PromptTooShortMessage := "Prompt must be at least 10 characters"
  const PromptTooLongMessage := "Prompt too long"
  const EnhancementFailedMessage := "Enhancement failed"
  const MinPromptLength := 10
  const MaxPromptLength := 10000

  /** The five names as the enum check lists them in its messages. */
  const EnumList := "'coding' | 'bug-fixing' | 'frontend' | 'backend' | 'general'"

  /** What the enhancement service returns. */
  datatype EnhanceResult = EnhanceResult(enhancedPrompt: string, modelUsed: string, latency: int)

  /**
   * The enhancement service as an opaque oracle: a result, or a throw that
   * carries an error message (Some) or is not an `Error` at all (None).
   */
  type Oracle = (string, Category) -> Result<EnhanceResult, Option<string>>

  /** The checked body. */
  datatype Request = Request(prompt: string, category: Category)

  /** The first issue for "prompt": a string of 10 to 10000 characters. */
  function PromptIssue(fields: map<string, Json>): (r: Option<string>)
    ensures r.None? <==>
      StringField(fields, "prompt").Success? && MinPromptLength <= |fields["prompt"].s| <= MaxPromptLength
    ensures StringField(fields, "prompt").Success? && |fields["prompt"].s| < MinPromptLength ==> r == Some(PromptTooShortMessage)
    ensures StringField(fields, "prompt").Success? && |fields["prompt"].s| > MaxPromptLength ==> r == Some(PromptTooLongMessage)
  {
    match StringField(fields, "prompt")
    case Failure(e) => Some(e)
    case Success(p) =>
      if |p| < MinPromptLength then Some(PromptTooShortMessage)
      else if |p| > MaxPromptLength then Some(PromptTooLongMessage)
      else None
  }

  /** The first issue for "category": one of the five names. */
  function CategoryIssue(fields: map<string, Json>): (r: Option<string>)
    ensures r.None? <==> "category" in fields && fields["category"].JString? && ParseCategory(fields["category"].s).Some?
    ensures "category" !in fields ==> r == Some(RequiredMessage)
  {
    if "category" !in fields then Some(RequiredMessage)
    else match fields["category"]
      case JString(s) =>
        if ParseCategory(s).Some? then None
        else Some("Invalid enum value. Expected " + EnumList + ", received '" + s + "'")
      case other => Some("Expected " + EnumList + ", received " + TypeName(other))
  }

  /** The body check; a prompt issue is reported before a category issue. */
  function Validate(body: Body): (r: Result<Request, string>)
    requires !body.Unparsable?
    ensures r.Success? <==> body.Object? && PromptIssue(body.fields).None? && CategoryIssue(body.fields).None?
    ensures r.Success? ==>
      && r.value.prompt == body.fields["prompt"].s
      && MinPromptLength <= |r.value.prompt| <= MaxPromptLength
      && CategoryName(r.value.category) == body.fields["category"].s
    ensures body.Object? && PromptIssue(body.fields).Some? ==> r == Failure(PromptIssue(body.fields).value)
    ensures body.Object? && PromptIssue(body.fields).None? && CategoryIssue(body.fields).Some? ==> r == Failure(CategoryIssue(body.fields).value)
    ensures body.NonObject? ==> r == Failure(NotAnObject(body.value))
  {
    match body
    case NonObject(v) => Failure(NotAnObject(v))
    case Object(fields) =>
      match PromptIssue(fields)
      case Some(e) => Failure(e)
      case None =>
        match CategoryIssue(fields)
        case Some(e) => Failure(e)
        case None => Success(Request(fields["prompt"].s, ParseCategory(fields["category"].s).value))
  }

  /** The message of a schema validation error whose paths all failed `required`. */
  function RequiredPathsMessage(paths: seq<string>): string {
    if paths == [] then ""
    else
      var item := paths[0] + ": Path `" + paths[0] + "` is required.";
      if |paths| == 1 then item else item + ", " + RequiredPathsMessage(paths[1..])
  }

  function ValidationFailedMessage(paths: seq<string>): string {
    "PromptHistory validation failed: " + RequiredPathsMessage(paths)
  }

  /** The document the handler hands to `PromptHistory.create`. */
  function Fields(userId: nat, req: Request, res: EnhanceResult): HistoryFields {
    HistoryFields(Some(userId), Some(req.prompt), Some(res.enhancedPrompt), Some(CategoryName(req.category)),
                  None, Some(res.modelUsed), Some(res.latency))
  }

  /** What one request leaves behind: the database and the reply. */
  datatype Outcome = Outcome(store: Store, reply: Reply)

  /**
   * The handler: `session` is what `getSession` gave, `dbFault` a message
   * thrown by the database connection or insert, if any. `getSession`
   * itself is taken as not throwing: its cookie store fails only outside a
   * request scope.
   */
  function Handle(st: Store, now: int, session: Option<Claims>, body: Body, oracle: Oracle, dbFault: Option<string>): Outcome {
    if session.None? then Outcome(st, Reply(401, ErrorBody(UnauthorizedMessage)))
    else if body.Unparsable? then Outcome(st, Reply(500, ErrorBody(body.message)))
    else match Validate(body)
    case Failure(e) => Outcome(st, Reply(400, ErrorBody(e)))
    case Success(req) =>
      match oracle(req.prompt, req.category)
      case Failure(thrown) =>
        Outcome(st, Reply(500, ErrorBody(if thrown.Some? then thrown.value else EnhancementFailedMessage)))
      case Success(res) =>
        if dbFault.Some? then Outcome(st, Reply(500, ErrorBody(dbFault.value)))
        else match CreateHistory(st.nextId, Fields(session.value.userId, req, res), now)
        case Failure(paths) => Outcome(st, Reply(500, ErrorBody(ValidationFailedMessage(paths))))
        case Success(rec) =>
          Outcome(st.(history := st.history + [rec], nextId := st.nextId + 1),
                  Reply(200, EnhanceBody(res.enhancedPrompt, res.modelUsed, res.latency)))
  }

  /** The handler keeps the database invariant. */
  lemma HandleKeepsValid(st: Store, now: int, session: Option<Claims>, body: Body, oracle: Oracle, dbFault: Option<string>)
    requires StoreValid(st)
    ensures StoreValid(Handle(st, now, session, body, oracle, dbFault).store)
  {
  }

  /** Without a session the answer is 401 whatever the body, and nothing is stored. */
  lemma {:induction false} NoSessionStoresNothing(st: Store, now: int, body: Body, oracle: Oracle, dbFault: Option<string>)
    ensures Handle(st, now, None, body, oracle, dbFault) == Outcome(st, Reply(401, ErrorBody(UnauthorizedMessage)))
  {
  }

  /**
   * Every answer other than 200 leaves the store as it was; 400 comes
   * exactly from a failed body check.
   */
  lemma {:induction false} OnlySuccessStores(st: Store, now: int, session: Option<Claims>, body: Body, oracle: Oracle, dbFault: Option<string>)
    ensures var o := Handle(st, now, session, body, oracle, dbFault);
      && (o.reply.status != 200 ==> o.store == st)
      && (o.reply.status == 400 <==> session.Some? && !body.Unparsable? && Validate(body).Failure?)
  {
  }

  /**
   * A thrown enhancement ends the request with 500 and its message (or
   * "Enhancement failed" for a throw that is not an `Error`), storing nothing.
   */
  lemma {:induction false} OracleFailureStoresNothing(st: Store, now: int, session: Option<Claims>, body: Body, oracle: Oracle, dbFault: Option<string>)
    requires session.Some? && !body.Unparsable? && Validate(body).Success?
    requires oracle(Validate(body).value.prompt, Validate(body).value.category).Failure?
    ensures var thrown := oracle(Validate(body).value.prompt, Validate(body).value.category).error;
      Handle(st, now, session, body, oracle, dbFault) ==
        Outcome(st, Reply(500, ErrorBody(if thrown.Some? then thrown.value else EnhancementFailedMessage)))
  {
  }

  /**
   * Success: exactly one record is appended, owned by the session's user,
   * holding the prompt, category and service result; the reply echoes what
   * was stored. It happens exactly when the session, the body, the service
   * and the database all succeed and the service returned a non-empty text.
   */
  lemma {:induction false} SuccessAppendsOne(st: Store, now: int, session: Option<Claims>, body: Body, oracle: Oracle, dbFault: Option<string>)
    ensures var o := Handle(st, now, session, body, oracle, dbFault);
      o.reply.status == 200 <==>
        && session.Some? && !body.Unparsable? && Validate(body).Success?
        && oracle(Validate(body).value.prompt, Validate(body).value.category).Success?
        && oracle(Validate(body).value.prompt, Validate(body).value.category).value.enhancedPrompt != []
        && dbFault.None?
    ensures var o := Handle(st, now, session, body, oracle, dbFault);
      o.reply.status == 200 ==>
        var req := Validate(body).value;
        var res := oracle(req.prompt, req.category).value;
        && |o.store.history| == |st.history| + 1
        && o.store.history[..|st.history|] == st.history
        && o.store.otps == st.otps && o.store.users == st.users
        && var rec := o.store.history[|st.history|];
        && rec.userId == session.value.userId
        && rec.originalPrompt == req.prompt
        && rec.category == req.category
        && rec.enhancedPrompt == res.enhancedPrompt
        && rec.metadata.modelUsed == res.modelUsed && rec.metadata.latency == res.latency
        && rec.createdAt == now && !rec.isFavorite
        && o.reply.body == EnhanceBody(rec.enhancedPrompt, rec.metadata.modelUsed, rec.metadata.latency)
  {
    var o := Handle(st, now, session, body, oracle, dbFault);
    if session.Some? && !body.Unparsable? && Validate(body).Success? {
      var req := Validate(body).value;
      if oracle(req.prompt, req.category).Success? && dbFault.None? {
        var res := oracle(req.prompt, req.category).value;
        var f := Fields(session.value.userId, req, res);
        assert PresentString(f.originalPrompt);
        assert CategoryName(req.category) in {"coding", "bug-fixing", "frontend", "backend", "general"};
        if CreateHistory(st.nextId, f, now).Success? {
          var rec := CreateHistory(st.nextId, f, now).value;
          assert rec.category == req.category by {
            assert CategoryName(rec.category) == CategoryName(req.category);
            match rec.category
            case Coding =>
            case BugFixing =>
            case Frontend =>
            case Backend =>
            case General =>
          }
        }
      }
    }
  }

  /**
   * The handler on the server: the database and the reply are those
   * `Handle` gives for the session the jar holds; only the history and the
   * id allocator can change.
   */
  method Post(s: Server, body: Body, oracle: Oracle, dbFault: Option<string>) returns (reply: Reply)
    requires s.Valid()
    modifies s`history, s`nextId
    ensures var o := Handle(old(s.Snapshot()), s.now, s.CurrentSession(), body, oracle, dbFault);
      s.Snapshot() == o.store && reply == o.reply
    ensures s.Valid()
  {
    HandleKeepsValid(s.Snapshot(), s.now, s.CurrentSession(), body, oracle, dbFault);
    var session := s.CurrentSession();
    if session.None? {
      return Reply(401, ErrorBody(UnauthorizedMessage));
    }
    if body.Unparsable? {
      return Reply(500, ErrorBody(body.message));
    }
    var validation := Validate(body);
    if validation.Failure? {
      return Reply(400, ErrorBody(validation.error));
    }
    var req := validation.value;
    var result := oracle(req.prompt, req.category);
    if result.Failure? {
      return Reply(500, ErrorBody(if result.error.Some? then result.error.value else EnhancementFailedMessage));
    }
    var res := result.value;
    if dbFault.Some? {
      return Reply(500, ErrorBody(dbFault.value));
    }
    var created := CreateHistory(s.nextId, Fields(session.value.userId, req, res), s.now);
    if created.Failure? {
      return Reply(500, ErrorBody(ValidationFailedMessage(created.error)));
    }
    s.history := s.history + [created.value];
    s.nextId := s.nextId + 1;
    return Reply(200, EnhanceBody(res.enhancedPrompt, res.modelUsed, res.latency));
  }
}
