/**
 * The bot configuration of `src/simbot/config.py`: three Slack credentials
 * and a log level, validated on construction, every failing check reported
 * at once. The environment is a map from variable names to values.
 */
module Config {
  import opened Wrappers
  import opened Text

  datatype Config = Config(slackBotToken: string, slackAppToken: string, slackSigningSecret: string, logLevel: string)

  const BOT_TOKEN_PREFIX := "xoxb-"
  const APP_TOKEN_PREFIX := "xapp-"
  const DEFAULT_LOG_LEVEL := "INFO"

  const BOT_TOKEN_ERROR := "SLACK_BOT_TOKEN must start with 'xoxb-'"
  const APP_TOKEN_ERROR := "SLACK_APP_TOKEN must start with 'xapp-'"
  const SECRET_ERROR := "SLACK_SIGNING_SECRET is required"
  const ERRORS_TITLE := "Configuration errors:\n"

  /** The checks of `__post_init__` that fail, in the order it makes them. */
  function Errors(c: Config): (es: seq<string>)
    ensures |es| <= 3
  {
    (if IsPrefix(BOT_TOKEN_PREFIX, c.slackBotToken) then [] else [BOT_TOKEN_ERROR])
    + (if IsPrefix(APP_TOKEN_PREFIX, c.slackAppToken) then [] else [APP_TOKEN_ERROR])
    + (if c.slackSigningSecret != [] then [] else [SECRET_ERROR])
  }

  /** A configuration is accepted exactly when all three credentials pass, so no check fails. */
  predicate Valid(c: Config)
    ensures Valid(c) <==> Errors(c) == []
  {
    IsPrefix(BOT_TOKEN_PREFIX, c.slackBotToken) && IsPrefix(APP_TOKEN_PREFIX, c.slackAppToken) && c.slackSigningSecret != []
  }

  /**
   * Each check is reported exactly when it fails, once, and the errors keep
   * the order bot token, app token, signing secret; none is reported for a
   * valid configuration.
   */
  lemma ErrorsReportEveryFailure(c: Config)
    ensures Errors(c) == [] <==> Valid(c)
    ensures BOT_TOKEN_ERROR in Errors(c) <==> !IsPrefix(BOT_TOKEN_PREFIX, c.slackBotToken)
    ensures APP_TOKEN_ERROR in Errors(c) <==> !IsPrefix(APP_TOKEN_PREFIX, c.slackAppToken)
    ensures SECRET_ERROR in Errors(c) <==> c.slackSigningSecret == []
    ensures forall i, j :: 0 <= i < j < |Errors(c)| ==> ErrorRank(Errors(c)[i]) < ErrorRank(Errors(c)[j])
  {
    assert BOT_TOKEN_ERROR != APP_TOKEN_ERROR && BOT_TOKEN_ERROR != SECRET_ERROR && APP_TOKEN_ERROR != SECRET_ERROR by {
      assert BOT_TOKEN_ERROR[6] != APP_TOKEN_ERROR[6];
      assert BOT_TOKEN_ERROR[6] != SECRET_ERROR[6];
      assert APP_TOKEN_ERROR[6] != SECRET_ERROR[6];
    }
  }

  /** The position of each message among the checks. */
  function ErrorRank(e: string): nat {
    if e == BOT_TOKEN_ERROR then 0 else if e == APP_TOKEN_ERROR then 1 else 2
  }

  /** The `ValueError` message: the title, then each error on its own line behind "  - ". */
  function ErrorMessage(es: seq<string>): (m: string)
    ensures IsPrefix(ERRORS_TITLE, m)
    ensures |es| == 1 ==> m == ERRORS_TITLE + "  - " + es[0]
  {
    ERRORS_TITLE + Join("\n", ErrorLines(es))
  }

  function ErrorLines(es: seq<string>): (ls: seq<string>)
    ensures |ls| == |es|
    ensures forall i :: 0 <= i < |es| ==> ls[i] == "  - " + es[i]
  {
    seq(|es|, i requires 0 <= i < |es| => "  - " + es[i])
  }

  /** Every error is in the message, behind its marker. */
  lemma ErrorMessageNamesEach(es: seq<string>, i: nat)
    requires i < |es|
    ensures Contains(ErrorMessage(es), "  - " + es[i])
    ensures IsPrefix(ERRORS_TITLE, ErrorMessage(es))
  {
    var ls := ErrorLines(es);
    JoinContains("\n", ls, i);
    ContainsWithin(ERRORS_TITLE, Join("\n", ls), [], ls[i]);
    assert ERRORS_TITLE + Join("\n", ls) + [] == ErrorMessage(es);
  }

  /**
   * `Config(...)`: `__post_init__` collects the failing checks one by one
   * and raises `ValueError` with their message when there are any.
   */
  method NewConfig(botToken: string, appToken: string, signingSecret: string, logLevel: string)
    returns (r: Result<Config, string>)
    ensures var c := Config(botToken, appToken, signingSecret, logLevel);
      && (r.Ok? <==> Valid(c))
      && (r.Ok? ==> r.value == c)
      && (r.Err? ==> r.error == ErrorMessage(Errors(c)))
  {
    var errors: seq<string> := [];
    if !IsPrefix(BOT_TOKEN_PREFIX, botToken) {
      errors := errors + [BOT_TOKEN_ERROR];
    }
    if !IsPrefix(APP_TOKEN_PREFIX, appToken) {
      errors := errors + [APP_TOKEN_ERROR];
    }
    if signingSecret == [] {
      errors := errors + [SECRET_ERROR];
    }
    var c := Config(botToken, appToken, signingSecret, logLevel);
    assert errors == Errors(c);
    if errors != [] {
      return Err(ErrorMessage(errors));
    }
    return Ok(c);
  }

  /** `os.getenv(name, default)`. */
  function Lookup(env: map<string, string>, name: string, default: string): string {
    if name in env then env[name] else default
  }

  /** `load_config`: each variable from the environment, missing credentials read as "". */
  method LoadConfig(env: map<string, string>) returns (r: Result<Config, string>)
    ensures var c := LoadedFields(env);
      && (r.Ok? <==> Valid(c))
      && (r.Ok? ==> r.value == c)
      && (r.Err? ==> r.error == ErrorMessage(Errors(c)))
  {
    r := NewConfig(
      Lookup(env, "SLACK_BOT_TOKEN", ""),
      Lookup(env, "SLACK_APP_TOKEN", ""),
      Lookup(env, "SLACK_SIGNING_SECRET", ""),
      Lookup(env, "LOG_LEVEL", DEFAULT_LOG_LEVEL));
  }

  /**
   * The fields `load_config` reads from the environment: each variable's
   * value when it is set, else "" for a credential and "INFO" for the level.
   */
  function LoadedFields(env: map<string, string>): (c: Config)
    ensures c.slackBotToken == (if "SLACK_BOT_TOKEN" in env then env["SLACK_BOT_TOKEN"] else "")
    ensures c.slackAppToken == (if "SLACK_APP_TOKEN" in env then env["SLACK_APP_TOKEN"] else "")
    ensures c.slackSigningSecret == (if "SLACK_SIGNING_SECRET" in env then env["SLACK_SIGNING_SECRET"] else "")
    ensures c.logLevel == (if "LOG_LEVEL" in env then env["LOG_LEVEL"] else DEFAULT_LOG_LEVEL)
  {
    Config(
      Lookup(env, "SLACK_BOT_TOKEN", ""),
      Lookup(env, "SLACK_APP_TOKEN", ""),
      Lookup(env, "SLACK_SIGNING_SECRET", ""),
      Lookup(env, "LOG_LEVEL", DEFAULT_LOG_LEVEL))
  }

  /**
   * A credential missing from the environment always fails its check, and
   * the log level is "INFO" unless set.
   */
  lemma MissingCredentialsFail(env: map<string, string>)
    ensures "SLACK_BOT_TOKEN" !in env ==> BOT_TOKEN_ERROR in Errors(LoadedFields(env))
    ensures "SLACK_APP_TOKEN" !in env ==> APP_TOKEN_ERROR in Errors(LoadedFields(env))
    ensures "SLACK_SIGNING_SECRET" !in env ==> SECRET_ERROR in Errors(LoadedFields(env))
    ensures "LOG_LEVEL" !in env ==> LoadedFields(env).logLevel == DEFAULT_LOG_LEVEL
    ensures Errors(LoadedFields(env)) == [] ==>
      "SLACK_BOT_TOKEN" in env && "SLACK_APP_TOKEN" in env && "SLACK_SIGNING_SECRET" in env
  {
    ErrorsReportEveryFailure(LoadedFields(env));
  }
}
