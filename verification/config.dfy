/** Configuration selection of config.py. Environment variables are passed in as an
    `Environment` value (`None` = unset); each configuration class becomes the settings
    it would expose given that environment. */
module Config {
  import opened Common
  import opened Text
  import opened Entities
  import Ranges

  datatype ConfigClass = DevelopmentConfig | TestingConfig | ProductionConfig

  /** The environment variables config.py consults; the port is taken already parsed. */
  datatype Environment = Environment(
    flaskEnv: Option<string>,
    secretKey: Option<string>,
    databaseUrl: Option<string>,
    testDatabaseUrl: Option<string>,
    mailUsername: Option<string>,
    mailPassword: Option<string>,
    mailEnabled: Option<string>,
    mailServer: Option<string>,
    mailPort: Option<int>,
    mailUseTls: Option<string>,
    mailUseSsl: Option<string>)

  /** `MAIL_DEFAULT_SENDER`: display name and address. */
  datatype Sender = Sender(name: string, address: string)

  /** The attributes a configuration class exposes. */
  datatype Settings = Settings(
    debug: bool,
    testing: bool,
    secretKey: Option<string>,
    databaseUri: Option<string>,
    mailUsername: Option<string>,
    mailPassword: Option<string>,
    mailEnabled: bool,
    mailServer: string,
    mailPort: int,
    mailUseTls: bool,
    mailUseSsl: bool,
    defaultSender: Option<Sender>,
    normal: Metrics)

  const SenderName: string := "GreenTech Systems"
  const DefaultMailServer: string := "smtp.gmail.com"
  const DefaultMailPort: int := 587
  const TestDatabaseDefault: string := "sqlite:///:memory:"

  /** `NORMAL_TEMP` .. `NORMAL_MOISTURE`: the values logged when an issue is resolved. */
  const NormalReading: Metrics := Metrics(22.5, 50.0, 700.0, 5000.0, 6.5, 45.0)

  /** `value.lower() in ('true', '1', 't')`. */
  predicate ParseBool(value: string) {
    ToLower(value) in ["true", "1", "t"]
  }

  /** A boolean environment flag with its default text. */
  predicate EnvFlag(raw: Option<string>, default: string) {
    ParseBool(raw.GetOr(default))
  }

  /** What the base `Config` class reads from the environment. */
  function BaseSettings(env: Environment): Settings {
    Settings(
      debug := false,
      testing := false,
      secretKey := env.secretKey,
      databaseUri := env.databaseUrl,
      mailUsername := env.mailUsername,
      mailPassword := env.mailPassword,
      mailEnabled := EnvFlag(env.mailEnabled, "True"),
      mailServer := env.mailServer.GetOr(DefaultMailServer),
      mailPort := env.mailPort.GetOr(DefaultMailPort),
      mailUseTls := EnvFlag(env.mailUseTls, "True"),
      mailUseSsl := EnvFlag(env.mailUseSsl, "False"),
      defaultSender := if Truthy(env.mailUsername) then Some(Sender(SenderName, env.mailUsername.value)) else None,
      normal := NormalReading)
  }

  /** The attributes of each class: the subclasses override a few of the base ones. */
  function SettingsOf(c: ConfigClass, env: Environment): (r: Settings)
    ensures r.debug <==> c == DevelopmentConfig
    ensures r.testing <==> c == TestingConfig
    ensures r.databaseUri == if c == TestingConfig then Some(env.testDatabaseUrl.GetOr(TestDatabaseDefault)) else env.databaseUrl
    ensures r.mailEnabled <==> c != TestingConfig && ParseBool(env.mailEnabled.GetOr("True"))
    ensures r.secretKey == env.secretKey
    ensures r.mailUsername == env.mailUsername && r.mailPassword == env.mailPassword
    ensures r.mailServer == env.mailServer.GetOr(DefaultMailServer)
    ensures r.mailPort == env.mailPort.GetOr(DefaultMailPort)
    ensures r.mailUseTls == ParseBool(env.mailUseTls.GetOr("True"))
    ensures r.mailUseSsl == ParseBool(env.mailUseSsl.GetOr("False"))
    ensures r.defaultSender.Some? <==> env.mailUsername.Some? && env.mailUsername.value != ""
    ensures r.defaultSender.Some? ==> r.defaultSender.value == Sender(SenderName, env.mailUsername.value)
    ensures r.normal == NormalReading
  {
    var base := BaseSettings(env);
    match c
    case DevelopmentConfig => base.(debug := true)
    case ProductionConfig => base.(debug := false)
    case TestingConfig =>
      base.(testing := true,
            databaseUri := Some(env.testDatabaseUrl.GetOr(TestDatabaseDefault)),
            mailEnabled := false)
  }

  /** The `config_by_name` table. */
  function ConfigByName(name: string): Option<ConfigClass> {
    if name == "development" then Some(DevelopmentConfig)
    else if name == "testing" then Some(TestingConfig)
    else if name == "production" then Some(ProductionConfig)
    else if name == "default" then Some(DevelopmentConfig)
    else None
  }

  /** The class `get_config` looks up: `FLASK_ENV` lower-cased, `default` when unset,
      and the development class for a name missing from the table. */
  function SelectClass(env: Environment): ConfigClass {
    ConfigByName(ToLower(env.flaskEnv.GetOr("default"))).GetOr(DevelopmentConfig)
  }

  datatype ConfigError = MissingSecretKey | MissingDatabaseUrl | MissingMailCredentials

  /** What a production deployment must provide, stated as one condition. */
  predicate ProductionReady(s: Settings) {
    && Truthy(s.secretKey)
    && Truthy(s.databaseUri)
    && (s.mailEnabled ==> Truthy(s.mailUsername) && Truthy(s.mailPassword))
  }

  /** `get_config`: the selected class, after the production checks. */
  function GetConfig(env: Environment): (r: Result<ConfigClass, ConfigError>)
    ensures r.Success? ==> r.value == SelectClass(env)
    ensures SelectClass(env) != ProductionConfig ==> r.Success?
    ensures r.Failure? ==> !ProductionReady(SettingsOf(ProductionConfig, env))
    ensures r == Failure(MissingSecretKey) <==>
              SelectClass(env) == ProductionConfig && !Truthy(env.secretKey)
    ensures r == Failure(MissingDatabaseUrl) <==>
              SelectClass(env) == ProductionConfig && Truthy(env.secretKey) && !Truthy(env.databaseUrl)
    ensures r == Failure(MissingMailCredentials) <==>
              && SelectClass(env) == ProductionConfig
              && Truthy(env.secretKey) && Truthy(env.databaseUrl)
              && SettingsOf(ProductionConfig, env).mailEnabled
              && !(Truthy(env.mailUsername) && Truthy(env.mailPassword))
  {
    var c := SelectClass(env);
    if c == ProductionConfig then
      var s := SettingsOf(c, env);
      if !Truthy(s.secretKey) then Failure(MissingSecretKey)
      else if !Truthy(s.databaseUri) then Failure(MissingDatabaseUrl)
      else if s.mailEnabled && (!Truthy(s.mailUsername) || !Truthy(s.mailPassword)) then Failure(MissingMailCredentials)
      else Success(c)
    else
      Success(c)
  }

  /** `get_config` rejects exactly the production selections that are not ready. */
  lemma GetConfigFailsIffProductionNotReady(env: Environment)
    ensures GetConfig(env).Failure? <==>
              SelectClass(env) == ProductionConfig && !ProductionReady(SettingsOf(ProductionConfig, env))
  {
  }

  /** The selection ignores letter case and reaches every class by name. */
  lemma SelectionByName(env: Environment, name: string)
    requires env.flaskEnv == Some(name)
    ensures SelectClass(env) == SelectClass(env.(flaskEnv := Some(ToLower(name))))
    ensures ToLower(name) == "production" ==> SelectClass(env) == ProductionConfig
    ensures ToLower(name) == "testing" ==> SelectClass(env) == TestingConfig
    ensures ToLower(name) !in ["production", "testing"] ==> SelectClass(env) == DevelopmentConfig
  {
    ToLowerIdempotent(name);
  }

  /** With `FLASK_ENV` unset the development class is used, and it is never rejected. */
  lemma UnsetEnvironmentIsDevelopment(env: Environment)
    requires env.flaskEnv.None?
    ensures GetConfig(env) == Success(DevelopmentConfig)
  {
    assert ToLower("default") == "default";
  }

  /** Boolean flags read case-insensitively; `MAIL_ENABLED` and `MAIL_USE_TLS` default on. */
  lemma FlagParsing(value: string)
    ensures ParseBool(value) == ParseBool(ToLower(value))
    ensures ParseBool("True") && ParseBool("1") && ParseBool("T")
    ensures !ParseBool("False") && !ParseBool("yes") && !ParseBool("")
  {
    ToLowerIdempotent(value);
    assert ToLower("True") == "true";
    assert ToLower("T") == "t";
    assert ToLower("1") == "1";
    assert ToLower("False") == "false";
    assert ToLower("yes") == "yes";
  }

  /** The testing class never sends mail, whatever the environment says. */
  lemma TestingNeverMails(env: Environment)
    ensures !SettingsOf(TestingConfig, env).mailEnabled
    ensures Truthy(SettingsOf(TestingConfig, env).databaseUri) || env.testDatabaseUrl == Some("")
  {
  }

  /** Every class carries the same normal values, and each lies in its metric's range,
      so the reading logged at resolution is itself in range. */
  lemma NormalReadingInRange(c: ConfigClass, env: Environment)
    ensures SettingsOf(c, env).normal == NormalReading
    ensures Ranges.AllInRange(SettingsOf(c, env).normal)
  {
  }
}
