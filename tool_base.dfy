/**
 * The tool base of `src/simbot/tools/base.py`: a tool is available when its
 * opt-in feature flag is set and its health check passes, in that order.
 * The flag's environment value and the health result are inputs here.
 */
module ToolBase {
  import opened Wrappers
  import opened Text

  /** `Tool`: its name and description, fixed at construction. */
  datatype Tool = Tool(name: string, description: string)

  /** The `health` dictionary: `healthy` and `error`. */
  datatype Health = Health(healthy: bool, error: Option<string>)

  /** The `check_availability` dictionary: `available`, `reason` and `error`. */
  datatype Availability = Availability(available: bool, reason: string, error: Option<string>)

  /** The `execute` dictionary: `success`, `result` and `error`. */
  datatype ExecuteResult = ExecuteResult(success: bool, result: string, error: Option<string>)

  const FLAG_PREFIX := "ENABLE_"
  const ENABLED_VALUES := ["true", "1", "yes"]

  /** `_flag_name`: the environment variable that switches the tool on. */
  function FlagName(t: Tool): (f: string)
    ensures IsPrefix(FLAG_PREFIX, f) && |f| == |FLAG_PREFIX| + |t.name|
    ensures forall i :: |FLAG_PREFIX| <= i < |f| ==> !('a' <= f[i] <= 'z')
    ensures Lower(f[|FLAG_PREFIX|..]) == Lower(t.name)
  {
    var f := FLAG_PREFIX + Upper(t.name);
    AppendSlices(FLAG_PREFIX, Upper(t.name));
    UpperThenLower(t.name);
    f
  }

  /**
   * `is_enabled`, given the value the flag variable has in the environment
   * (`None` when unset, which reads as `"false"`). The tool is opt-in: it is
   * on exactly for `true`, `1` and `yes` in any ASCII case.
   */
  predicate IsEnabled(flagValue: Option<string>)
    ensures IsEnabled(flagValue) <==>
      flagValue.Some? && (Lower(flagValue.value) == "true" || Lower(flagValue.value) == "1" || Lower(flagValue.value) == "yes")
  {
    assert Lower("false") == "false";
    assert "false" != "true" && "false" != "1" && "false" != "yes";
    Lower(flagValue.GetOr("false")) in ENABLED_VALUES
  }

  /** The flag reads the same whatever the case of its value. */
  lemma EnabledIgnoresCase(v: string)
    ensures IsEnabled(Some(v)) == IsEnabled(Some(Lower(v)))
  {
    assert Lower(Lower(v)) == Lower(v);
  }

  /** The default `check_health`: no dependencies, always healthy. */
  const DEFAULT_HEALTH := Health(true, None)

  /** `EchoTool.check_health`, given whether the audit log service is configured. */
  function EchoHealth(auditConfigured: bool): (h: Health)
    ensures h.healthy == auditConfigured
    ensures h.healthy <==> h.error.None?
  {
    if auditConfigured then Health(true, None) else Health(false, Some("Audit logging service not configured"))
  }

  /**
   * `check_availability`. The health result is only consulted when the flag
   * is on; `health` is what `check_health` would return. Available exactly
   * when enabled and healthy; a disabled tool's answer names its flag; an
   * enabled but unhealthy tool passes the health error on; only an unhealthy
   * tool has an error.
   */
  function CheckAvailability(t: Tool, flagValue: Option<string>, health: Health): (a: Availability)
    ensures a.available <==> IsEnabled(flagValue) && health.healthy
    ensures !IsEnabled(flagValue) ==> a.error.None? && Contains(a.reason, FlagName(t))
    ensures IsEnabled(flagValue) && !health.healthy ==> a.error == health.error
    ensures a.available ==> a.error.None?
  {
    if !IsEnabled(flagValue) then
      var a := Availability(false, "Feature flag " + FlagName(t) + " is disabled", None);
      assert IsPrefix(FlagName(t), a.reason[|"Feature flag "|..]);
      a
    else if !health.healthy then
      Availability(false, "Health check failed", health.error)
    else
      Availability(true, "Feature enabled and healthy", None)
  }

  /** A disabled tool's answer does not depend on its health. */
  lemma DisabledIgnoresHealth(t: Tool, flagValue: Option<string>, health: Health, other: Health)
    requires !IsEnabled(flagValue)
    ensures CheckAvailability(t, flagValue, health) == CheckAvailability(t, flagValue, other)
  {
  }

  /** With the default health check, availability is the flag alone. */
  lemma DefaultHealthAvailable(t: Tool, flagValue: Option<string>)
    ensures CheckAvailability(t, flagValue, DEFAULT_HEALTH).available == IsEnabled(flagValue)
  {
  }

  const ECHO := Tool("echo", "Echoes back the provided message")
  const AUDIT_LIMIT := 50

  /** The audit line of `EchoTool._audit_log`: the message cut to 50 characters, marked when cut. */
  function AuditText(message: string): (r: string)
    ensures IsPrefix("Echo executed: ", r)
    ensures |r| <= |"Echo executed: "| + AUDIT_LIMIT + 3
  {
    "Echo executed: " + message[..if |message| < AUDIT_LIMIT then |message| else AUDIT_LIMIT]
      + (if |message| > AUDIT_LIMIT then "..." else "")
  }

  /** A message of at most 50 characters is logged whole; a longer one as its first 50 and "...". */
  lemma AuditTruncation(message: string)
    ensures |message| <= AUDIT_LIMIT ==> AuditText(message) == "Echo executed: " + message
    ensures |message| > AUDIT_LIMIT ==> AuditText(message) == "Echo executed: " + message[..AUDIT_LIMIT] + "..."
  {
    assert message[..|message|] == message;
  }

  /**
   * `EchoTool.execute`: it always succeeds, the message can be read back
   * behind "Echo: ", and the audit line it logs is `AuditText`.
   */
  function EchoExecute(message: string): (r: (ExecuteResult, string))
    ensures r.0.success && r.0.error.None?
    ensures IsPrefix("Echo: ", r.0.result) && r.0.result[|"Echo: "|..] == message
    ensures r.1 == AuditText(message)
  {
    (ExecuteResult(true, "Echo: " + message, None), AuditText(message))
  }

  /** The flag `ENABLE_ECHO` switches echo on. */
  lemma EchoFlag()
    ensures FlagName(ECHO) == "ENABLE_ECHO"
  {
  }
}
