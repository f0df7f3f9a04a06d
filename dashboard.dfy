/**
 * The dashboard page: the map from the page's category names to the API's,
 * and `handleEnhance`, which updates the page state around one call to the
 * enhance endpoint.
 */
module Dashboard {
  import opened Wrappers
  import opened Text
  import opened HistoryModel
  import opened Http
  import EnhanceRoute

  datatype UiCategory = UiCoding | UiBugFixing | UiFrontend | UiBackend | UiGeneral

  /** `CATEGORY_API_MAP`. */
  function CategoryApiMap(c: UiCategory): string {
    match c
    case UiCoding => "coding"
    case UiBugFixing => "bug-fixing"
    case UiFrontend => "frontend"
    case UiBackend => "backend"
    case UiGeneral => "general"
  }

  /** The map is one-to-one. */
  lemma CategoryApiMapInjective(a: UiCategory, b: UiCategory)
    ensures CategoryApiMap(a) == CategoryApiMap(b) ==> a == b
  {
  }

  /** Every mapped name is one the server's category enum accepts. */
  lemma CategoryApiMapAccepted(c: UiCategory)
    ensures ParseCategory(CategoryApiMap(c)).Some?
  {
  }

  /** The body the page posts. */
  datatype EnhanceRequest = EnhanceRequest(prompt: string, category: string)

  /** The request as the server parses it. */
  function AsBody(req: EnhanceRequest): Body {
    Object(map["prompt" := JString(req.prompt), "category" := JString(req.category)])
  }

  /**
   * A request the page builds never fails the server's category check; it
   * passes the whole check exactly when the prompt has 10 to 10000
   * characters.
   */
  lemma {:induction false} RequestCategoryAccepted(prompt: string, c: UiCategory)
    ensures var fields := AsBody(EnhanceRequest(prompt, CategoryApiMap(c))).fields;
      EnhanceRoute.CategoryIssue(fields).None?
    ensures EnhanceRoute.Validate(AsBody(EnhanceRequest(prompt, CategoryApiMap(c)))).Success? <==>
      EnhanceRoute.MinPromptLength <= |prompt| <= EnhanceRoute.MaxPromptLength
  {
    var fields := AsBody(EnhanceRequest(prompt, CategoryApiMap(c))).fields;
    assert "prompt" != "category";
    assert fields["category"] == JString(CategoryApiMap(c));
    assert fields["prompt"] == JString(prompt);
    CategoryApiMapAccepted(c);
  }

  /** What the page keeps from a successful reply. */
  datatype EnhanceView = EnhanceView(enhancedPrompt: string, metadata: Option<(string, int)>)

  /**
   * How the call ended: a 2xx reply and its data, a non-2xx reply and its
   * "error" field if it was a non-empty string, or a throw (the fetch or the
   * JSON parse) carrying a message, or not an `Error` at all.
   */
  datatype ApiOutcome = Ok(data: EnhanceView) | HttpError(error: Option<string>) | Threw(message: Option<string>)

  const EnhancementFailedMessage := "Enhancement failed"
  const SomethingWentWrongMessage := "Something went wrong"

  /** The message shown for a failed call. */
  function FailureMessage(o: ApiOutcome): (m: string)
    requires !o.Ok?
    ensures o.HttpError? && o.error.Some? && o.error.value != [] ==> m == o.error.value
    ensures o.HttpError? && (o.error.None? || o.error.value == []) ==> m == EnhancementFailedMessage
    ensures o.Threw? ==> m == (if o.message.Some? then o.message.value else SomethingWentWrongMessage)
  {
    match o
    case HttpError(e) => if e.Some? && e.value != [] then e.value else EnhancementFailedMessage
    case Threw(msg) => if msg.Some? then msg.value else SomethingWentWrongMessage
  }

  class DashboardPage {
    var prompt: string
    var category: UiCategory
    var isEnhancing: bool
    var result: Option<EnhanceView>
    var error: Option<string>

    constructor ()
      ensures prompt == [] && category == UiCoding && !isEnhancing && result.None? && error.None?
    {
      prompt, category, isEnhancing, result, error := [], UiCoding, false, None, None;
    }

    /**
     * `handleEnhance`, run to completion; `respond` stands for the endpoint.
     * A blank prompt sends nothing and changes nothing. Otherwise the page
     * sends the prompt unchanged with the mapped category, and ends not
     * enhancing, holding either the data or the failure message, never both.
     */
    method HandleEnhance(respond: EnhanceRequest -> ApiOutcome) returns (sent: Option<EnhanceRequest>)
      modifies this`isEnhancing, this`result, this`error
      ensures IsBlank(prompt) ==> sent.None? && isEnhancing == old(isEnhancing) && result == old(result) && error == old(error)
      ensures !IsBlank(prompt) ==>
        && sent == Some(EnhanceRequest(prompt, CategoryApiMap(category)))
        && !isEnhancing
        && var outcome := respond(sent.value);
        && (outcome.Ok? ==> result == Some(outcome.data) && error.None?)
        && (!outcome.Ok? ==> result.None? && error == Some(FailureMessage(outcome)))
    {
      if IsBlank(prompt) {
        return None;
      }
      isEnhancing := true;
      error := None;
      var req := EnhanceRequest(prompt, CategoryApiMap(category));
      var outcome := respond(req);
      if outcome.Ok? {
        result := Some(outcome.data);
      } else {
        error := Some(FailureMessage(outcome));
        result := None;
      }
      isEnhancing := false;
      return Some(req);
    }
  }

  /** Only prompts with a non-whitespace character are sent. */
  lemma {:induction false} SentPromptsHaveContent(prompt: string)
    requires !IsBlank(prompt)
    ensures exists i :: 0 <= i < |prompt| && !IsJsWhitespace(prompt[i])
  {
    BlankIffAllWhitespace(prompt);
  }
}
