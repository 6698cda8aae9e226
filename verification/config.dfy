/** The configuration package: the settings records, the log-level names
    accepted on startup, the decision whether to apply the configured level,
    and the environment-variable name derived from a flag name. */
module Config {
  import Strings

  /** Settings for reaching the appliance (`bigipConfig`). */
  datatype BigipConfig = BigipConfig(
    username: string,
    password: string,
    basicAuth: bool,
    host: string,
    port: int)

  /** Settings of the exporter itself (`exporterConfig`). */
  datatype ExporterConfig = ExporterConfig(
    bindAddress: string,
    bindPort: int,
    partitions: string,
    configFile: string,
    namespace: string,
    logLevel: string)

  /** Everything the user can set (`Config`). */
  datatype Settings = Settings(bigip: BigipConfig, exporter: ExporterConfig)

  /** The four logger levels the program can select. */
  datatype Level = Debug | Info | Warn | Error

  /** The one name under which each level is accepted. */
  function LevelName(l: Level): string
  {
    match l
    case Debug => "debug"
    case Info => "info"
    case Warn => "warn"
    case Error => "error"
  }

  /** `parseLevel`: the level a name selects and whether the name was valid.
      A name is valid exactly when it is the name of some level, compared
      case-sensitively; every other name gives Info and false. */
  function ParseLevel(name: string): (r: (Level, bool))
    ensures r.1 ==> LevelName(r.0) == name
    ensures !r.1 ==> r.0 == Info
    ensures !r.1 <==> forall l: Level :: LevelName(l) != name
  {
    match name
    case "debug" => (Debug, true)
    case "info" => (Info, true)
    case "warn" => (Warn, true)
    case "error" => (Error, true)
    case _ => (Info, false)
  }

  /** Every level's own name parses back to that level. */
  lemma ParseLevelName(l: Level)
    ensures ParseLevel(LevelName(l)) == (l, true)
  {
  }

  /** Names the flag help text advertises but the parser does not accept,
      and a differently-cased valid name, all fall back to Info. */
  lemma ParseLevelRejects()
    ensures ParseLevel("trace") == (Info, false)
    ensures ParseLevel("warning") == (Info, false)
    ensures ParseLevel("critical") == (Info, false)
    ensures ParseLevel("DEBUG") == (Info, false)
    ensures ParseLevel("") == (Info, false)
  {
  }

  /** The level-setting step of package initialisation: given the level the
      logger has and the configured name, the level it has afterwards and
      whether an invalid-level warning was logged. */
  function InitLogLevel(current: Level, configured: string): (r: (Level, bool))
    ensures r.1 <==> forall l: Level :: LevelName(l) != configured
    ensures !r.1 ==> LevelName(r.0) == configured
    ensures r.1 ==> r.0 == current
  {
    var (level, valid) := ParseLevel(configured);
    if valid then (level, false) else (current, true)
  }

  /** The environment-variable prefix set for the flags, before upper-casing. */
  const EnvPrefix: string := "be"

  /** The name logged for a flag whose environment binding failed:
      "BE_" and the flag name with each '.' replaced by '_', upper-cased. */
  function EnvVarName(flagName: string): (r: string)
    ensures |r| == |flagName| + 3
    ensures r[..3] == "BE_"
    ensures '.' !in r
    ensures forall i :: 0 <= i < |flagName| && flagName[i] == '.' ==> r[i + 3] == '_'
    ensures forall i :: 0 <= i < |flagName| && flagName[i] != '.' ==> r[i + 3] == Strings.UpperAscii(flagName[i])
  {
    "BE_" + Strings.ToUpper(Strings.ReplaceChar(flagName, '.', '_'))
  }

  /** The variable name the prefix and key replacer configure for a flag:
      the lower-cased key joined to the prefix with '_', upper-cased, and
      with '.' replaced by '_'. */
  function BoundEnvKey(flagName: string): string
  {
    Strings.ReplaceChar(Strings.ToUpper(EnvPrefix + "_" + Strings.ToLower(flagName)), '.', '_')
  }

  /** The prefix-and-replacer binding and the name in the warning agree. */
  lemma EnvVarNameIsBoundKey(flagName: string)
    ensures EnvVarName(flagName) == BoundEnvKey(flagName)
  {
    var key := EnvPrefix + "_" + Strings.ToLower(flagName);
    Strings.UpperOfLower(flagName);
    assert Strings.ToUpper(key) == "BE_" + Strings.ToUpper(flagName);
    Strings.ReplaceUpperCommute(flagName, '.', '_');
  }

  /** The basic-auth flag's variable. */
  lemma EnvVarNameExample()
    ensures EnvVarName("bigip.basic_auth") == "BE_BIGIP_BASIC_AUTH"
  {
    var r := EnvVarName("bigip.basic_auth");
    assert r == "BE_" + Strings.ToUpper(Strings.ReplaceChar("bigip.basic_auth", '.', '_'));
    assert Strings.ReplaceChar("bigip.basic_auth", '.', '_') == "bigip_basic_auth";
  }

  /** The names of the registered flags. */
  const FlagNames: seq<string> := [
    "bigip.basic_auth", "bigip.host", "bigip.port", "bigip.username",
    "bigip.password", "exporter.bind_address", "exporter.bind_port",
    "exporter.partitions", "exporter.config", "exporter.namespace",
    "exporter.log_level"]

  /** Names that differ in length, or in a lower-case letter at the same
      place, give different variables. */
  lemma EnvVarNamesDiffer(a: string, b: string, k: nat)
    requires |a| != |b| || (k < |a| && k < |b| && 'a' <= a[k] <= 'z' && 'a' <= b[k] <= 'z' && a[k] != b[k])
    ensures EnvVarName(a) != EnvVarName(b)
  {
  }

  /** No two registered flags share an environment variable. */
  lemma FlagEnvVarNamesDistinct()
    ensures forall i, j :: 0 <= i < j < |FlagNames| ==> EnvVarName(FlagNames[i]) != EnvVarName(FlagNames[j])
  {
    forall i, j | 0 <= i < j < |FlagNames|
      ensures EnvVarName(FlagNames[i]) != EnvVarName(FlagNames[j])
    {
      var a, b := FlagNames[i], FlagNames[j];
      if |a| == 10 || |a| == 14 {
        EnvVarNamesDiffer(a, b, 6);
      } else {
        EnvVarNamesDiffer(a, b, 9);
      }
    }
  }

  /** Upper-casing and the '.'-to-'_' replacement lose information: distinct
      flag names can share a variable. */
  lemma EnvVarNameCollides()
    ensures EnvVarName("a.b") == EnvVarName("a_b") == EnvVarName("A.B")
  {
  }
}
