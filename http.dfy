/**
 * Request bodies and JSON responses of the route handlers, and the pieces of
 * schema validation the routes share: a required string field and the
 * default messages reported for a missing or mistyped field.
 */
module Http {
  import opened Wrappers
  import opened UserModel
  import opened HistoryModel

  /** A parsed JSON value, with the structure the routes never inspect left out. */
  datatype Json = JString(s: string) | JNumber(n: int) | JBool(b: bool) | JNull | JArray | JObject

  function TypeName(j: Json): string {
    match j
    case JString(_) => "string"
    case JNumber(_) => "number"
    case JBool(_) => "boolean"
    case JNull => "null"
    case JArray => "array"
    case JObject => "object"
  }

  /**
   * The request body as `request.json()` sees it: text that is not JSON
   * (the parse throws, with a message), a JSON value that is not an
   * object, or an object with its fields.
   */
  datatype Body = Unparsable(message: string) | NonObject(value: Json) | Object(fields: map<string, Json>)

  const RequiredMessage := "Required"

  /** The first issue for a field declared as a string: missing, or not a string. */
  function StringField(fields: map<string, Json>, name: string): (r: Result<string, string>)
    ensures r.Success? <==> name in fields && fields[name].JString?
    ensures r.Success? ==> r.value == fields[name].s
    ensures name !in fields ==> r == Failure(RequiredMessage)
  {
    if name !in fields then Failure(RequiredMessage)
    else match fields[name]
      case JString(s) => Success(s)
      case other => Failure("Expected string, received " + TypeName(other))
  }

  /** The issue for a body that is JSON but not an object. */
  function NotAnObject(value: Json): string {
    "Expected object, received " + TypeName(value)
  }

  /** The public part of a user, as the login and session routes return it. */
  datatype UserView = UserView(id: nat, email: string, role: Role)

  /** One item of the history listing. */
  datatype HistoryItem = HistoryItem(
    id: nat, originalPrompt: string, enhancedPrompt: string,
    category: string, createdAt: int, metadata: Metadata)

  datatype Payload =
    | ErrorBody(error: string)
    | MessageBody(message: string)
    | LoginBody(message: string, user: UserView)
    | UserBody(user: UserView)
    | EnhanceBody(enhancedPrompt: string, modelUsed: string, latency: int)
    | HistoryBody(history: seq<HistoryItem>)

  /** A JSON response; `NextResponse.json` without a status is 200. */
  datatype Reply = Reply(status: int, body: Payload)
}
