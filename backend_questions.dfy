/** The backend questionnaire: its record, initial value, field update and operation toggle. */
module BackendQuestions {
  import opened ListToggle

  datatype BackendData = BackendData(
    kind: string,
    httpMethod: string,
    schema: string,
    authRequired: bool,
    dbOps: seq<string>)

  const InitialBackendData := BackendData("API Endpoint", "GET", "", true, ["Read"])

  datatype FieldName = Kind | HttpMethod | Schema | AuthRequired | DbOps

  datatype FieldValue =
    | KindValue(kind: string)
    | HttpMethodValue(m: string)
    | SchemaValue(schema: string)
    | AuthRequiredValue(required: bool)
    | DbOpsValue(ops: seq<string>)

  function NameOf(v: FieldValue): FieldName {
    match v
    case KindValue(_) => Kind
    case HttpMethodValue(_) => HttpMethod
    case SchemaValue(_) => Schema
    case AuthRequiredValue(_) => AuthRequired
    case DbOpsValue(_) => DbOps
  }

  function Get(d: BackendData, f: FieldName): (v: FieldValue)
    ensures NameOf(v) == f
  {
    match f
    case Kind => KindValue(d.kind)
    case HttpMethod => HttpMethodValue(d.httpMethod)
    case Schema => SchemaValue(d.schema)
    case AuthRequired => AuthRequiredValue(d.authRequired)
    case DbOps => DbOpsValue(d.dbOps)
  }

  /** `update`: a copy with the named field replaced and every other field equal. */
  function Update(d: BackendData, v: FieldValue): (r: BackendData)
    ensures Get(r, NameOf(v)) == v
    ensures forall f :: f != NameOf(v) ==> Get(r, f) == Get(d, f)
  {
    match v
    case KindValue(k) => d.(kind := k)
    case HttpMethodValue(m) => d.(httpMethod := m)
    case SchemaValue(s) => d.(schema := s)
    case AuthRequiredValue(a) => d.(authRequired := a)
    case DbOpsValue(ops) => d.(dbOps := ops)
  }

  /** `toggleDbOp`. */
  function ToggleDbOp(d: BackendData, op: string): (r: BackendData)
    ensures r.dbOps == Toggle(d.dbOps, op)
    ensures forall f :: f != DbOps ==> Get(r, f) == Get(d, f)
  {
    Update(d, DbOpsValue(Toggle(d.dbOps, op)))
  }

  /**
   * The initial data asks for an authenticated GET and holds exactly "Read",
   * so toggling "Read" empties the list and toggling another op appends it.
   */
  lemma {:induction false} InitialToggles(op: string)
    requires op != "Read"
    ensures InitialBackendData.httpMethod == "GET" && InitialBackendData.authRequired
    ensures ToggleDbOp(InitialBackendData, "Read").dbOps == []
    ensures ToggleDbOp(InitialBackendData, op).dbOps == ["Read", op]
  {
    assert "Read" in InitialBackendData.dbOps;
    assert op !in InitialBackendData.dbOps;
    assert RemoveAll(["Read"], "Read") == [] by {
      assert ["Read"][1..] == [];
    }
  }

  /** Toggling an absent op twice restores the data. */
  lemma {:induction false} ToggleDbOpTwice(d: BackendData, op: string)
    requires op !in d.dbOps
    ensures ToggleDbOp(ToggleDbOp(d, op), op) == d
  {
    ToggleTwiceAbsent(d.dbOps, op);
  }

  /** The other operations keep their relative order. */
  lemma {:induction false} ToggleDbOpKeepsOrder(d: BackendData, op: string)
    ensures RemoveAll(ToggleDbOp(d, op).dbOps, op) == RemoveAll(d.dbOps, op)
  {
    ToggleKeepsOthersInOrder(d.dbOps, op);
  }
}
