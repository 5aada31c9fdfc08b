/** How deploy_lambda_function resolves a unit's runtime settings from its
    .lambda.json hash, and the description it gives the function. */
module Settings {

  import opened Wrappers

  /** A value of the .lambda.json hash: a string such as "90", or a hash of
      environment variables. */
  datatype ConfigValue = Str(s: string) | Vars(vars: map<string, string>)

  /** The parsed .lambda.json of a unit; an absent file reads as the empty hash. */
  type LambdaConfig = map<string, ConfigValue>

  /** The settings a function is created or updated with. A timeout of None is
      the nil the script passes when the hash is non-empty without "timeout";
      the SDK then leaves the parameter out of the request (see Created and
      Updated for what the function service makes of that). */
  datatype FunctionSettings = FunctionSettings(timeout: Option<ConfigValue>, memory: ConfigValue, env: ConfigValue)

  /** The script's timeout default, which is also the function service's own
      default for a function created without a timeout. */
  const DefaultTimeout := Str("3")
  const DefaultMemory := Str("128")
  const DefaultEnv := Vars(map[])

  /** The timeout default applies only to an empty hash (`any?` is false);
      memory and env fall back to their defaults key by key. */
  function Resolve(cfg: LambdaConfig): (r: FunctionSettings)
    ensures "memory" in cfg ==> r.memory == cfg["memory"]
    ensures "memory" !in cfg ==> r.memory == DefaultMemory
    ensures "env" in cfg ==> r.env == cfg["env"]
    ensures "env" !in cfg ==> r.env == DefaultEnv
    ensures "timeout" in cfg ==> r.timeout == Some(cfg["timeout"])
    ensures cfg == map[] ==> r.timeout == Some(DefaultTimeout)
  {
    FunctionSettings(
      if |cfg| > 0 then (if "timeout" in cfg then Some(cfg["timeout"]) else None) else Some(DefaultTimeout),
      if "memory" in cfg then cfg["memory"] else DefaultMemory,
      if "env" in cfg then cfg["env"] else DefaultEnv)
  }

  /** The timeout is nil, that is left out of the request, exactly when the
      hash has other keys but no "timeout". */
  lemma TimeoutNilExactly(cfg: LambdaConfig)
    ensures Resolve(cfg).timeout == None <==> (cfg != map[] && "timeout" !in cfg)
  {
    if cfg != map[] {
      var k :| k in cfg;
      assert |cfg| > 0;
    }
  }

  /** What create_function stores: a timeout left out of the request falls
      back to the service's default of 3 seconds. */
  function Created(sent: FunctionSettings): (r: FunctionSettings)
    ensures r.timeout.Some?
    ensures sent.timeout.Some? ==> r == sent
    ensures sent.timeout.None? ==> r == sent.(timeout := Some(DefaultTimeout))
  {
    if sent.timeout.None? then sent.(timeout := Some(DefaultTimeout)) else sent
  }

  /** What update_function_configuration stores over `current`: a timeout
      left out of the request keeps the function's present timeout. */
  function Updated(current: FunctionSettings, sent: FunctionSettings): (r: FunctionSettings)
    ensures sent.timeout.Some? ==> r == sent
    ensures sent.timeout.None? ==> r == sent.(timeout := current.timeout)
  {
    if sent.timeout.None? then sent.(timeout := current.timeout) else sent
  }

  /** A new function runs with the configured timeout, or with 3 seconds when
      .lambda.json sets none, whether the hash is empty or not. */
  lemma CreatedTimeout(cfg: LambdaConfig)
    ensures Created(Resolve(cfg)).timeout == Some(if "timeout" in cfg then cfg["timeout"] else DefaultTimeout)
  {
  }

  /** An updated function takes the configured timeout; without one it falls
      back to 3 seconds only when .lambda.json is empty or absent, and keeps
      its present timeout otherwise. */
  lemma UpdatedTimeout(current: FunctionSettings, cfg: LambdaConfig)
    ensures Updated(current, Resolve(cfg)).timeout
      == if "timeout" in cfg then Some(cfg["timeout"])
         else if cfg == map[] then Some(DefaultTimeout)
         else current.timeout
  {
    TimeoutNilExactly(cfg);
  }

  /** Sending the same settings twice stores the same settings as sending
      them once. */
  lemma UpdatedTwice(current: FunctionSettings, sent: FunctionSettings)
    ensures Updated(Updated(current, sent), sent) == Updated(current, sent)
  {
  }

  /** Whatever was sent on creation, updating with the same settings leaves
      them unchanged. */
  lemma UpdatedAfterCreated(sent: FunctionSettings)
    ensures Updated(Created(sent), sent) == Created(sent)
  {
  }

  /** env: the key of the database record for the current mode. */
  function EnvName(staging: bool): string
  {
    if staging then "test" else "release"
  }

  /** get_database_config: the JSON text of the current mode's database record
      in .database.json (`databases`, None when the file is absent). A missing
      file gives ""; an empty table or a missing record gives nil.to_json,
      that is "null". */
  function DatabaseConfig(databases: Option<map<string, string>>, staging: bool): (r: string)
    ensures databases == None ==> r == ""
    ensures databases.Some? && EnvName(staging) in databases.value ==> r == databases.value[EnvName(staging)]
    ensures databases.Some? && EnvName(staging) !in databases.value ==> r == "null"
  {
    match databases
    case None => ""
    case Some(hosts) =>
      if |hosts| > 0 && EnvName(staging) in hosts then hosts[EnvName(staging)] else "null"
  }

  /** The description of an updated function: the database record when the
      unit holds dbconf.py, otherwise the deploy name. */
  function Description(hasDbconf: bool, name: string, dbConfig: string): (r: string)
    ensures hasDbconf ==> r == dbConfig
    ensures !hasDbconf ==> r == name
  {
    if hasDbconf then dbConfig else name
  }
}
