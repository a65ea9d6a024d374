/**
 * The tool's own settings: the defaults, how a decoded settings file is
 * laid over them, the `~` expansion of the AWS config path, and the
 * validation of the four required fields.
 */
module AppConfig {
  import opened Wrappers
  import opened GoStrings

  /** The application configuration. */
  datatype Config = Config(
    ssoStartUrl: string,
    ssoRegion: string,
    ssoRole: string,
    defaultRegion: string,
    configFile: string,
    backupConfigs: bool,
    dryRun: bool)

  /** Why a configuration is rejected. */
  datatype ConfigError =
    | StartUrlRequired
    | SsoRegionRequired
    | DefaultRegionRequired
    | ConfigFileRequired

  /** The message each rejection carries. */
  function Message(e: ConfigError): string {
    match e
    case StartUrlRequired => "SSO start URL is required"
    case SsoRegionRequired => "SSO region is required"
    case DefaultRegionRequired => "default region is required"
    case ConfigFileRequired => "config file path is required"
  }

  /** `Config.Validate`: the four required fields are checked in order and
      the first empty one names the error; the SSO role is not required and
      the contents of a field are not inspected. */
  function Validate(c: Config): (r: Outcome<ConfigError>)
    ensures r.Pass? <==> c.ssoStartUrl != "" && c.ssoRegion != "" && c.defaultRegion != "" && c.configFile != ""
    ensures c.ssoStartUrl == "" ==> r == Fail(StartUrlRequired)
  {
    if c.ssoStartUrl == "" then Fail(StartUrlRequired)
    else if c.ssoRegion == "" then Fail(SsoRegionRequired)
    else if c.defaultRegion == "" then Fail(DefaultRegionRequired)
    else if c.configFile == "" then Fail(ConfigFileRequired)
    else Pass
  }

  /** The required fields, in the order they are checked, each with the
      error its absence gives. */
  function Requirements(c: Config): seq<(string, ConfigError)> {
    [(c.ssoStartUrl, StartUrlRequired), (c.ssoRegion, SsoRegionRequired),
     (c.defaultRegion, DefaultRegionRequired), (c.configFile, ConfigFileRequired)]
  }

  /** The error of the first empty field in a list of requirements. */
  function FirstMissing(reqs: seq<(string, ConfigError)>): Option<ConfigError> {
    if reqs == [] then None
    else if reqs[0].0 == "" then Some(reqs[0].1)
    else FirstMissing(reqs[1..])
  }

  /** Validation agrees with the ordered list of requirements: it fails
      with exactly the error of the first empty required field. */
  lemma ValidateIsFirstMissing(c: Config)
    ensures Validate(c) == (match FirstMissing(Requirements(c))
                            case None => Pass
                            case Some(e) => Fail(e))
  {
    var reqs := Requirements(c);
    var rest3 := [(c.configFile, ConfigFileRequired)];
    var rest2 := [(c.defaultRegion, DefaultRegionRequired)] + rest3;
    var rest1 := [(c.ssoRegion, SsoRegionRequired)] + rest2;
    assert reqs[1..] == rest1 && rest1[1..] == rest2 && rest2[1..] == rest3 && rest3[1..] == [];
    assert FirstMissing(rest3) == if c.configFile == "" then Some(ConfigFileRequired) else None;
    assert FirstMissing(rest2) == if c.defaultRegion == "" then Some(DefaultRegionRequired) else FirstMissing(rest3);
    assert FirstMissing(rest1) == if c.ssoRegion == "" then Some(SsoRegionRequired) else FirstMissing(rest2);
  }

  /** An entirely empty configuration reports the missing start URL, and a
      start URL made only of spaces is accepted. */
  lemma ValidateEdgeCases(other: Config)
    requires other.ssoRegion != "" && other.defaultRegion != "" && other.configFile != ""
    ensures var empty := Config("", "", "", "", "", false, false);
      Validate(empty) == Fail(StartUrlRequired) && Message(StartUrlRequired) == "SSO start URL is required"
    ensures Validate(other.(ssoStartUrl := "   ")).Pass?
  {
  }

  /** `filepath.Join(home, ".aws", "config")`: an empty home is dropped;
      otherwise the trailing slashes of `home` are cleaned away, leaving
      "/" when `home` is made only of slashes. */
  function AwsConfigPath(home: string): (p: string)
    ensures p != "" && HasSuffix(p, ".aws/config")
    ensures home == "" ==> p == ".aws/config"
    ensures home != "" && home[|home| - 1] != '/' ==> p == home + "/.aws/config"
  {
    if home == "" then ".aws/config"
    else
      var dir := TrimRightChar(home, '/');
      if dir == "" then "/.aws/config" else dir + "/.aws/config"
  }

  /** `setDefaults`: the value of every setting that neither the settings
      file nor the environment provides. */
  function Defaults(home: string): (c: Config)
    ensures c.ssoStartUrl == "https://your-sso-portal.awsapps.com/start"
    ensures c.ssoRegion == "us-east-1" && c.defaultRegion == "us-east-1"
    ensures c.ssoRole == "AdministratorAccess"
    ensures c.configFile == AwsConfigPath(home)
    ensures c.backupConfigs && !c.dryRun
  {
    Config("https://your-sso-portal.awsapps.com/start", "us-east-1", "AdministratorAccess",
           "us-east-1", AwsConfigPath(home), true, false)
  }

  /** The settings one source (the settings file, or the environment)
      provides; None where it says nothing. */
  datatype Settings = Settings(
    ssoStartUrl: Option<string>,
    ssoRegion: Option<string>,
    ssoRole: Option<string>,
    defaultRegion: Option<string>,
    configFile: Option<string>,
    backupConfigs: Option<bool>,
    dryRun: Option<bool>)

  function Or<T>(o: Option<T>, default: T): T {
    if o.Some? then o.value else default
  }

  /** Provided settings win over the defaults, field by field. */
  function Overlay(defaults: Config, s: Settings): (c: Config)
    ensures s.ssoStartUrl.None? ==> c.ssoStartUrl == defaults.ssoStartUrl
    ensures s.ssoStartUrl.Some? ==> c.ssoStartUrl == s.ssoStartUrl.value
    ensures s.ssoRegion.None? ==> c.ssoRegion == defaults.ssoRegion
    ensures s.ssoRegion.Some? ==> c.ssoRegion == s.ssoRegion.value
    ensures s.ssoRole.None? ==> c.ssoRole == defaults.ssoRole
    ensures s.ssoRole.Some? ==> c.ssoRole == s.ssoRole.value
    ensures s.defaultRegion.None? ==> c.defaultRegion == defaults.defaultRegion
    ensures s.defaultRegion.Some? ==> c.defaultRegion == s.defaultRegion.value
    ensures s.configFile.None? ==> c.configFile == defaults.configFile
    ensures s.configFile.Some? ==> c.configFile == s.configFile.value
    ensures s.backupConfigs.None? ==> c.backupConfigs == defaults.backupConfigs
    ensures s.backupConfigs.Some? ==> c.backupConfigs == s.backupConfigs.value
    ensures s.dryRun.None? ==> c.dryRun == defaults.dryRun
    ensures s.dryRun.Some? ==> c.dryRun == s.dryRun.value
  {
    Config(Or(s.ssoStartUrl, defaults.ssoStartUrl), Or(s.ssoRegion, defaults.ssoRegion),
           Or(s.ssoRole, defaults.ssoRole), Or(s.defaultRegion, defaults.defaultRegion),
           Or(s.configFile, defaults.configFile), Or(s.backupConfigs, defaults.backupConfigs),
           Or(s.dryRun, defaults.dryRun))
  }

  /** What looking for and reading the settings file gives. */
  datatype ConfigRead =
    | NotFound            // no settings file at the given path, or none on the search path
    | ReadFailed          // a file was found but could not be read or parsed
    | UnmarshalFailed     // the merged settings do not fit `Config`
    | Read(file: Settings)

  datatype LoadError = ReadingConfigFile | UnmarshalingConfig

  /** A source that provides nothing. */
  const NoSettings := Settings(None, None, None, None, None, None, None)

  /** The config path after `Load`'s home expansion: only a path starting
      with `~` is replaced, and only when expanding it succeeds
      (`expansion` is what expanding the path gives, None on failure). */
  function ExpandConfigFile(path: string, expansion: Option<string>): (p: string)
    ensures p != path ==> HasPrefix(path, "~") && expansion == Some(p)
    ensures HasPrefix(path, "~") && expansion.Some? ==> p == expansion.value
  {
    if HasPrefix(path, "~") && expansion.Some? then expansion.value else path
  }

  /** The settings in force: the defaults, under the settings file, under
      the environment (`AWS_SSO_CONFIG_*`). */
  function Layered(home: string, file: Settings, env: Settings): Config {
    Overlay(Overlay(Defaults(home), file), env)
  }

  /** The environment wins over the settings file, which wins over the
      defaults. */
  lemma LayeredPrecedence(home: string, file: Settings, env: Settings)
    ensures var c := Layered(home, file, env);
      && c.ssoStartUrl == Or(env.ssoStartUrl, Or(file.ssoStartUrl, Defaults(home).ssoStartUrl))
      && c.ssoRegion == Or(env.ssoRegion, Or(file.ssoRegion, Defaults(home).ssoRegion))
      && c.ssoRole == Or(env.ssoRole, Or(file.ssoRole, Defaults(home).ssoRole))
      && c.defaultRegion == Or(env.defaultRegion, Or(file.defaultRegion, Defaults(home).defaultRegion))
      && c.configFile == Or(env.configFile, Or(file.configFile, Defaults(home).configFile))
      && c.backupConfigs == Or(env.backupConfigs, Or(file.backupConfigs, Defaults(home).backupConfigs))
      && c.dryRun == Or(env.dryRun, Or(file.dryRun, Defaults(home).dryRun))
  {
    var d := Defaults(home);
    var mid := Overlay(d, file);
    var c := Overlay(mid, env);
    assert mid.ssoStartUrl == Or(file.ssoStartUrl, d.ssoStartUrl);
    assert c.ssoStartUrl == Or(env.ssoStartUrl, mid.ssoStartUrl);
  }

  /** `Load`: `configPath` is the explicit settings file ("" to search the
      default locations). A file missing from the search path is not an
      error, but an explicit path that does not exist is; a read or decode
      failure is an error too. Otherwise the result is the layered settings
      with the config path home-expanded. */
  method Load(configPath: string, read: ConfigRead, env: Settings, home: string, expansion: Option<string>)
    returns (r: Result<Config, LoadError>)
    ensures r == Failure(ReadingConfigFile) <==> read.ReadFailed? || (read.NotFound? && configPath != "")
    ensures r == Failure(UnmarshalingConfig) <==> read.UnmarshalFailed?
    ensures read.NotFound? && configPath == "" ==>
      r == Success(Layered(home, NoSettings, env).(configFile := ExpandConfigFile(Layered(home, NoSettings, env).configFile, expansion)))
    ensures read.Read? ==>
      r == Success(Layered(home, read.file, env).(configFile := ExpandConfigFile(Layered(home, read.file, env).configFile, expansion)))
  {
    var file := NoSettings;
    match read {
      case ReadFailed => return Failure(ReadingConfigFile);
      case NotFound =>
        if configPath != "" {
          return Failure(ReadingConfigFile);
        }
      case UnmarshalFailed => return Failure(UnmarshalingConfig);
      case Read(f) => file := f;
    }
    var config := Overlay(Overlay(Defaults(home), file), env);
    if HasPrefix(config.configFile, "~") {
      if expansion.Some? {
        config := config.(configFile := expansion.value);
      }
    }
    return Success(config);
  }

  /** `Default`: `Load` from the default search path, nil on error. With
      neither a settings file nor any environment setting, the result
      validates. */
  method Default(read: ConfigRead, env: Settings, home: string, expansion: Option<string>)
    returns (c: Option<Config>)
    ensures c.None? <==> read.ReadFailed? || read.UnmarshalFailed?
    ensures read.NotFound? && env == NoSettings && expansion != Some("") ==> c.Some? && Validate(c.value).Pass?
  {
    var r := Load("", read, env, home, expansion);
    if r.Failure? {
      return None;
    }
    return Some(r.value);
  }

  /** The environment alone configures the tool: with no settings file,
      every value the environment gives is the one loaded, and the config
      path it does not give stays the default. */
  lemma EnvironmentOnly(home: string, env: Settings, expansion: Option<string>)
    requires env.ssoStartUrl.Some? && env.ssoRegion.Some? && env.ssoRole.Some?
    requires env.defaultRegion.Some? && env.backupConfigs.Some? && env.dryRun.Some?
    requires env.configFile.None?
    ensures var c := Layered(home, NoSettings, env);
      && c.ssoStartUrl == env.ssoStartUrl.value && c.ssoRegion == env.ssoRegion.value
      && c.ssoRole == env.ssoRole.value && c.defaultRegion == env.defaultRegion.value
      && c.backupConfigs == env.backupConfigs.value && c.dryRun == env.dryRun.value
      && c.configFile == AwsConfigPath(home)
  {
    LayeredPrecedence(home, NoSettings, env);
  }

  /** The defaults are a valid configuration, and so is any overlay that
      does not blank a required field, whether or not the config path is
      expanded (to a non-empty path). */
  lemma DefaultsValid(home: string, s: Settings, expansion: Option<string>)
    requires s.ssoStartUrl != Some("") && s.ssoRegion != Some("")
    requires s.defaultRegion != Some("") && s.configFile != Some("")
    requires expansion != Some("")
    ensures Validate(Defaults(home)).Pass?
    ensures var c := Overlay(Defaults(home), s);
      Validate(c.(configFile := ExpandConfigFile(c.configFile, expansion))).Pass?
  {
  }
}
