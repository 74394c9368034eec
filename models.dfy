/**
 * The domain model of the SQL tools: a query definition and its parameters
 * as validated from a definition file, the uniform result envelope, and
 * the execution context threaded through for tracing.
 *
 * A definition file is modelled after YAML parsing: each field is present
 * (`Some`) or absent (`None`), already of the right primitive type, plus the
 * names of any top-level fields the schema does not know.
 */
module Models {
  import opened Wrappers
  import opened Text
  import OrderedDict

  /** The parameter types a definition may declare. */
  const PARAMETER_TYPES: seq<string> := ["string", "int", "date"]

  datatype QueryParameter = QueryParameter(name: string, paramType: string, required: bool)

  /** Tool-protocol exposure settings of one definition. */
  datatype McpConfig = McpConfig(name: string, group: string, description: Option<string>)

  datatype QueryDefinition = QueryDefinition(
    name: string,
    description: string,
    trigger: string,
    enabled: bool,
    database: string,
    credentialsEnvKey: string,
    sql: string,
    parameters: seq<QueryParameter>,
    cacheTtlSeconds: int,
    mcp: Option<McpConfig>)

  // ---------------------------------------------------------------------
  // Definition files before validation.

  datatype RawParameter = RawParameter(name: Option<string>, paramType: Option<string>, required: Option<bool>)

  datatype RawMcp = RawMcp(name: Option<string>, group: Option<string>, description: Option<string>)

  datatype RawDefinition = RawDefinition(
    name: Option<string>,
    description: Option<string>,
    trigger: Option<string>,
    enabled: Option<bool>,
    database: Option<string>,
    credentialsEnvKey: Option<string>,
    sql: Option<string>,
    parameters: Option<seq<RawParameter>>,
    cacheTtlSeconds: Option<int>,
    mcp: Option<RawMcp>,
    unknownFields: seq<string>)

  /** One validation failure: where (field path) and why. */
  datatype FieldError = FieldError(loc: seq<string>, msg: string)

  const FIELD_REQUIRED := "Field required"
  const EXTRA_FORBIDDEN := "Extra inputs are not permitted"

  function Nested(prefix: string, errs: seq<FieldError>): (r: seq<FieldError>)
    ensures |r| == |errs|
    ensures forall i :: 0 <= i < |errs| ==> r[i].loc == [prefix] + errs[i].loc && r[i].msg == errs[i].msg
  {
    seq(|errs|, i requires 0 <= i < |errs| => FieldError([prefix] + errs[i].loc, errs[i].msg))
  }

  function Require<T>(field: string, v: Option<T>): (r: seq<FieldError>)
    ensures r == [] <==> v.Some?
  {
    if v.Some? then [] else [FieldError([field], FIELD_REQUIRED)]
  }

  // ---------------------------------------------------------------------
  // Field validators.

  /** The `type` validator of a parameter. */
  function ValidateParamType(v: string): (r: Result<string, string>)
    ensures r.Ok? <==> v in PARAMETER_TYPES
    ensures r.Ok? ==> r.value == v
  {
    if v in PARAMETER_TYPES then Ok(v) else Err("Invalid parameter type: " + v)
  }

  /** The `name` validator of the tool-protocol settings. */
  function ValidateMcpName(v: string): (r: Result<string, string>)
    ensures r.Ok? <==> ' ' !in v
    ensures r.Ok? ==> r.value == v
  {
    if ' ' in v then Err("MCP tool name cannot contain spaces") else Ok(v)
  }

  /** The `sql` validator: blank text is refused, accepted text is stored stripped. */
  function ValidateSql(v: string): (r: Result<string, string>)
    ensures r.Ok? <==> exists i :: 0 <= i < |v| && !IsSpace(v[i])
    ensures r.Ok? ==> r.value == Strip(v) && r.value != []
  {
    var s := Strip(v);
    StripEmptyIffBlank(v);
    if s == [] then Err("SQL cannot be empty") else Ok(s)
  }

  function ValueErrors(field: string, r: Result<string, string>): seq<FieldError> {
    if r.Ok? then [] else [FieldError([field], "Value error, " + r.error)]
  }

  // ---------------------------------------------------------------------
  // Building the validated models.

  predicate ParameterAcceptable(raw: RawParameter) {
    raw.name.Some? && raw.paramType.Some? && raw.paramType.value in PARAMETER_TYPES
  }

  function ParameterErrors(raw: RawParameter): (errs: seq<FieldError>)
    ensures errs == [] <==> ParameterAcceptable(raw)
  {
    Require("name", raw.name)
    + (match raw.paramType
       case None => [FieldError(["type"], FIELD_REQUIRED)]
       case Some(t) => ValueErrors("type", ValidateParamType(t)))
  }

  /** A parameter entry: `name` and `type` required, `type` one of the three, `required` defaults to true. */
  function BuildParameter(raw: RawParameter): (r: Result<QueryParameter, seq<FieldError>>)
    ensures r.Ok? <==> ParameterAcceptable(raw)
    ensures r.Ok? ==> r.value == QueryParameter(raw.name.value, raw.paramType.value, raw.required.GetOr(true))
    ensures r.Err? ==> r.error != []
  {
    var errs := ParameterErrors(raw);
    if errs != [] then Err(errs)
    else Ok(QueryParameter(raw.name.value, raw.paramType.value, raw.required.GetOr(true)))
  }

  predicate McpAcceptable(raw: RawMcp) {
    raw.name.Some? && ' ' !in raw.name.value && raw.group.Some?
  }

  function McpErrors(raw: RawMcp): (errs: seq<FieldError>)
    ensures errs == [] <==> McpAcceptable(raw)
  {
    (match raw.name
     case None => [FieldError(["name"], FIELD_REQUIRED)]
     case Some(n) => ValueErrors("name", ValidateMcpName(n)))
    + Require("group", raw.group)
  }

  /** Errors of the parameter list, located by index. */
  function ParameterListErrors(raws: seq<RawParameter>, from: nat): (errs: seq<FieldError>)
    ensures errs == [] <==> forall i :: 0 <= i < |raws| ==> ParameterAcceptable(raws[i])
  {
    if raws == [] then []
    else
      var rest := ParameterListErrors(raws[1..], from + 1);
      assert forall i :: 1 <= i < |raws| ==> raws[i] == raws[1..][i - 1];
      Nested(NatToString(from), ParameterErrors(raws[0])) + rest
  }

  function BuildParameters(raws: seq<RawParameter>): (ps: seq<QueryParameter>)
    requires forall i :: 0 <= i < |raws| ==> ParameterAcceptable(raws[i])
    ensures |ps| == |raws|
    ensures forall i :: 0 <= i < |raws| ==> Ok(ps[i]) == BuildParameter(raws[i])
  {
    seq(|raws|, i requires 0 <= i < |raws| && ParameterAcceptable(raws[i]) => BuildParameter(raws[i]).value)
  }

  /** Every condition under which a definition file is accepted. */
  predicate DefinitionAcceptable(raw: RawDefinition) {
    && raw.name.Some? && raw.description.Some? && raw.trigger.Some?
    && raw.database.Some? && raw.credentialsEnvKey.Some?
    && raw.sql.Some? && (exists i :: 0 <= i < |raw.sql.value| && !IsSpace(raw.sql.value[i]))
    && (raw.parameters.Some? ==> forall i :: 0 <= i < |raw.parameters.value| ==> ParameterAcceptable(raw.parameters.value[i]))
    && (raw.mcp.Some? ==> McpAcceptable(raw.mcp.value))
    && raw.unknownFields == []
  }

  function DefinitionErrors(raw: RawDefinition): (errs: seq<FieldError>)
    ensures errs == [] <==> DefinitionAcceptable(raw)
  {
    var required := Require("name", raw.name)
      + Require("description", raw.description)
      + Require("trigger", raw.trigger)
      + Require("database", raw.database)
      + Require("credentials_env_key", raw.credentialsEnvKey);
    var sql := match raw.sql
      case None => [FieldError(["sql"], FIELD_REQUIRED)]
      case Some(s) => ValueErrors("sql", ValidateSql(s));
    var params := match raw.parameters
      case None => []
      case Some(ps) => Nested("parameters", ParameterListErrors(ps, 0));
    var mcp := match raw.mcp
      case None => []
      case Some(m) => Nested("mcp", McpErrors(m));
    var extra := seq(|raw.unknownFields|, i requires 0 <= i < |raw.unknownFields| =>
      FieldError([raw.unknownFields[i]], EXTRA_FORBIDDEN));
    assert required == [] <==>
      raw.name.Some? && raw.description.Some? && raw.trigger.Some? && raw.database.Some? && raw.credentialsEnvKey.Some?;
    assert |required + sql + params + mcp + extra| == |required| + |sql| + |params| + |mcp| + |extra|;
    required + sql + params + mcp + extra
  }

  /**
   * Construction of a definition from a parsed file: every failing field is
   * reported; on success the optional fields take their defaults and the SQL
   * is stored stripped.
   */
  function BuildDefinition(raw: RawDefinition): (r: Result<QueryDefinition, seq<FieldError>>)
    ensures r.Ok? <==> DefinitionAcceptable(raw)
    ensures r.Err? ==> r.error != []
    ensures r.Ok? ==>
      && r.value.name == raw.name.value
      && r.value.description == raw.description.value
      && r.value.trigger == raw.trigger.value
      && r.value.database == raw.database.value
      && r.value.credentialsEnvKey == raw.credentialsEnvKey.value
      && r.value.enabled == raw.enabled.GetOr(true)
      && r.value.sql == Strip(raw.sql.value) && r.value.sql != []
      && |r.value.parameters| == |raw.parameters.GetOr([])|
      && (forall i :: 0 <= i < |r.value.parameters| ==>
            Ok(r.value.parameters[i]) == BuildParameter(raw.parameters.GetOr([])[i]))
      && r.value.cacheTtlSeconds == raw.cacheTtlSeconds.GetOr(0)
      && (r.value.mcp.Some? <==> raw.mcp.Some?)
      && (raw.mcp.Some? ==>
            r.value.mcp.value == McpConfig(raw.mcp.value.name.value, raw.mcp.value.group.value, raw.mcp.value.description))
  {
    var errs := DefinitionErrors(raw);
    if errs != [] then Err(errs) else Ok(Built(raw))
  }

  /** The definition an acceptable raw definition becomes. */
  function Built(raw: RawDefinition): (d: QueryDefinition)
    requires DefinitionAcceptable(raw)
    ensures d.name == raw.name.value && d.description == raw.description.value && d.trigger == raw.trigger.value
    ensures d.database == raw.database.value && d.credentialsEnvKey == raw.credentialsEnvKey.value
    ensures d.enabled == raw.enabled.GetOr(true) && d.cacheTtlSeconds == raw.cacheTtlSeconds.GetOr(0)
    ensures d.sql == Strip(raw.sql.value) && d.sql != []
    ensures |d.parameters| == |raw.parameters.GetOr([])|
    ensures forall i :: 0 <= i < |d.parameters| ==> Ok(d.parameters[i]) == BuildParameter(raw.parameters.GetOr([])[i])
    ensures d.mcp.Some? <==> raw.mcp.Some?
    ensures raw.mcp.Some? ==> d.mcp.value == McpConfig(raw.mcp.value.name.value, raw.mcp.value.group.value, raw.mcp.value.description)
  {
    var sql := ValidateSql(raw.sql.value).value;
    var mcp := match raw.mcp
      case None => None
      case Some(m) => Some(McpConfig(m.name.value, m.group.value, m.description));
    QueryDefinition(
      raw.name.value, raw.description.value, raw.trigger.value,
      raw.enabled.GetOr(true), raw.database.value, raw.credentialsEnvKey.value,
      sql, BuildParameters(raw.parameters.GetOr([])), raw.cacheTtlSeconds.GetOr(0), mcp)
  }

  // ---------------------------------------------------------------------
  // Result envelope.

  /**
   * A column value as the driver returns it. `SqlOther` stands for every
   * other driver type (float, decimal, bool, date, bytes): it is passed
   * through unchanged and carries the text `str()` renders it as.
   */
  datatype SqlValue = SqlNull | SqlInt(i: int) | SqlText(s: string) | SqlDateTime(iso: string) | SqlOther(shown: string)

  /** One result row: column name to value, in column order. */
  type Row = OrderedDict.Dict<SqlValue>

  datatype MetaValue = MBool(b: bool) | MInt(n: int) | MText(s: string)

  type Metadata = OrderedDict.Dict<MetaValue>

  datatype QueryResult = QueryResult(
    success: bool,
    data: Option<seq<Row>>,
    error: Option<string>,
    errorCode: Option<string>,
    metadata: Metadata,
    correlationId: Option<string>)

  const EXECUTED_AT := "executed_at"

  /** The creation hook: adds `executed_at` unless the caller supplied it; nothing else changes. */
  function WithExecutedAt(metadata: Metadata, executedAt: string): (m: Metadata)
    ensures OrderedDict.HasKey(m, EXECUTED_AT)
    ensures OrderedDict.HasKey(metadata, EXECUTED_AT) ==> m == metadata
    ensures !OrderedDict.HasKey(metadata, EXECUTED_AT) ==> OrderedDict.Get(m, EXECUTED_AT) == Some(MText(executedAt))
    ensures forall k :: k != EXECUTED_AT ==> OrderedDict.Get(m, k) == OrderedDict.Get(metadata, k)
    ensures OrderedDict.Valid(metadata) ==> OrderedDict.Valid(m)
  {
    if OrderedDict.HasKey(metadata, EXECUTED_AT) then metadata
    else
      var m := OrderedDict.Put(metadata, EXECUTED_AT, MText(executedAt));
      assert forall k :: k != EXECUTED_AT ==> OrderedDict.Get(m, k) == OrderedDict.Get(metadata, k) by {
        forall k | k != EXECUTED_AT ensures OrderedDict.Get(m, k) == OrderedDict.Get(metadata, k) {
          OrderedDict.PutOther(metadata, EXECUTED_AT, MText(executedAt), k);
        }
      }
      assert OrderedDict.Valid(metadata) ==> OrderedDict.Valid(m) by {
        if OrderedDict.Valid(metadata) { OrderedDict.PutValid(metadata, EXECUTED_AT, MText(executedAt)); }
      }
      m
  }

  /** A result as constructed by the source: the creation hook has run on its metadata. */
  function NewResult(success: bool, data: Option<seq<Row>>, error: Option<string>, errorCode: Option<string>,
                     metadata: Metadata, correlationId: Option<string>, executedAt: string): (r: QueryResult)
    ensures OrderedDict.HasKey(r.metadata, EXECUTED_AT)
    ensures r.success == success && r.data == data && r.error == error && r.errorCode == errorCode
    ensures r.correlationId == correlationId
  {
    QueryResult(success, data, error, errorCode, WithExecutedAt(metadata, executedAt), correlationId)
  }

  /** A field of the serialised envelope. */
  datatype Field = FBool(b: bool) | FRows(rows: Option<seq<Row>>) | FText(text: Option<string>) | FMeta(meta: Metadata)

  const ENVELOPE_KEYS: seq<string> := ["success", "data", "error", "error_code", "metadata", "correlation_id"]

  /** Serialisation for tool-protocol responses: the six envelope fields in a fixed order. */
  function ToDict(r: QueryResult): (d: OrderedDict.Dict<Field>)
    ensures OrderedDict.Keys(d) == ENVELOPE_KEYS
  {
    [("success", FBool(r.success)), ("data", FRows(r.data)), ("error", FText(r.error)),
     ("error_code", FText(r.errorCode)), ("metadata", FMeta(r.metadata)), ("correlation_id", FText(r.correlationId))]
  }

  /** Reads an envelope back; the partner of `ToDict`. */
  function FromDict(d: OrderedDict.Dict<Field>): Option<QueryResult> {
    var s := OrderedDict.Get(d, "success");
    var rows := OrderedDict.Get(d, "data");
    var e := OrderedDict.Get(d, "error");
    var c := OrderedDict.Get(d, "error_code");
    var m := OrderedDict.Get(d, "metadata");
    var id := OrderedDict.Get(d, "correlation_id");
    if && s.Some? && s.value.FBool? && rows.Some? && rows.value.FRows?
       && e.Some? && e.value.FText? && c.Some? && c.value.FText?
       && m.Some? && m.value.FMeta? && id.Some? && id.value.FText?
    then Some(QueryResult(s.value.b, rows.value.rows, e.value.text, c.value.text, m.value.meta, id.value.text))
    else None
  }

  /** Serialisation loses nothing. */
  lemma ToDictRoundTrip(r: QueryResult)
    ensures FromDict(ToDict(r)) == Some(r)
  {
    var d := ToDict(r);
    assert OrderedDict.Valid(d);
    assert d[0] == ("success", FBool(r.success));
    assert d[1] == ("data", FRows(r.data));
    assert d[2] == ("error", FText(r.error));
    assert d[3] == ("error_code", FText(r.errorCode));
    assert d[4] == ("metadata", FMeta(r.metadata));
    assert d[5] == ("correlation_id", FText(r.correlationId));
  }

  // ---------------------------------------------------------------------
  // Execution context.

  datatype ExecutionContext = ExecutionContext(correlationId: string, interface: string, userId: Option<string>)

  /** The user shown for a context: the id when it is non-empty, "unknown" otherwise. */
  function UserLabel(c: ExecutionContext): (u: string)
    ensures c.userId.Some? && c.userId.value != "" ==> u == c.userId.value
    ensures c.userId.None? || c.userId.value == "" ==> u == "unknown"
    ensures u == "unknown" <==> (c.userId.None? || c.userId.value == "" || c.userId.value == "unknown")
  {
    if c.userId.Some? && c.userId.value != "" then c.userId.value else "unknown"
  }

  /** The log prefix of a context: `[correlation] interface:user`. */
  function ContextString(c: ExecutionContext): (s: string)
    ensures IsPrefix("[" + c.correlationId + "] " + c.interface + ":", s)
    ensures |s| == |c.correlationId| + |c.interface| + 4 + |UserLabel(c)|
    ensures s[|s| - |UserLabel(c)|..] == UserLabel(c)
  {
    var head := "[" + c.correlationId + "] " + c.interface + ":";
    var s := head + UserLabel(c);
    assert s[..|head|] == head;
    s
  }
}
