/**
 * The framework's configuration accessors and write-back path
 * (packages/core/src/utils/config/config.ts).
 *
 * Process-wide state (environment variables, config files on disk, the
 * logger's level, the cached `config.json`) lives in one `Process` object.
 * A file holds the JSON document it encodes; the text JSON.stringify would
 * produce is not modelled.
 */
module Config {
  import opened Wrappers
  import opened Json

  const PortVar := "HTTP_PORT"
  const HostVar := "HTTP_HOST"
  const AuthKeyVar := "HTTP_AUTH_KEY"
  const LogLevelVar := "LOG_LEVEL"

  const DefaultPort := 7777
  const DefaultHost := "127.0.0.1"
  const DefaultLevel := "info"
  /** The placeholder that counts as "no key configured". */
  const PlaceholderKey := "default"
  /** The config name that `setYaml` hands to `setEnv` instead of writing a JSON file. */
  const EnvName := "env"

  /** The user and the default config directories (from '@/root'). */
  datatype Roots = Roots(configPath: string, defaultConfigPath: string)

  /** Which directory `getYaml` reads from. */
  datatype Source = User | Default

  datatype Error = TypeError(message: string)

  /** What `setYaml` did: handed the data to `setEnv`, returned a boolean, or threw. */
  datatype SetOutcome = Delegated | Returned(written: bool) | Threw(message: string)

  /** `process.env[name]`: a string, or `undefined` when unset. */
  function EnvValue(env: map<string, string>, name: string): (v: Value)
    ensures v.Undefined? || v.Str?
    ensures v.Str? <==> name in env
  {
    if name in env then Str(env[name]) else Undefined
  }

  /** `Number(process.env.HTTP_PORT) || 7777` */
  function Port(env: map<string, string>): (p: int)
    ensures p != 0
    ensures p == DefaultPort || (PortVar in env && ParseNumber(env[PortVar]) == Some(p))
    ensures PortVar !in env || ParseNumber(env[PortVar]) in {None, Some(0)} ==> p == DefaultPort
    ensures PortVar in env && ParseNumber(env[PortVar]).Some? && ParseNumber(env[PortVar]).value != 0
            ==> p == ParseNumber(env[PortVar]).value
  {
    var n := ToNumber(EnvValue(env, PortVar));
    if n.Some? && n.value != 0 then n.value else DefaultPort
  }

  /** `process.env.HTTP_HOST || '127.0.0.1'` */
  function Host(env: map<string, string>): (h: string)
    ensures h != ""
    ensures HostVar in env && env[HostVar] != "" ==> h == env[HostVar]
    ensures HostVar !in env || env[HostVar] == "" ==> h == DefaultHost
  {
    var v := EnvValue(env, HostVar);
    if Truthy(v) then v.s else DefaultHost
  }

  /** True when `authKey()` has to generate a key: the variable is unset, empty or the placeholder. */
  predicate NeedsGeneratedKey(env: map<string, string>) {
    !Truthy(EnvValue(env, AuthKeyVar)) || env[AuthKeyVar] == PlaceholderKey
  }

  /**
   * One call of `authKey()` given the value `randomStr()` would return:
   * the key it returns and the environment it leaves.
   */
  function AuthKeyStep(env: map<string, string>, random: string): (r: (string, map<string, string>))
    ensures NeedsGeneratedKey(env) ==> r.0 == random && r.1 == env[AuthKeyVar := random]
    ensures !NeedsGeneratedKey(env) ==> r.0 == env[AuthKeyVar] && r.0 !in {"", PlaceholderKey} && r.1 == env
    ensures AuthKeyVar in r.1 && r.1[AuthKeyVar] == r.0
    ensures forall name :: name != AuthKeyVar ==> EnvValue(r.1, name) == EnvValue(env, name)
  {
    if NeedsGeneratedKey(env) then (random, env[AuthKeyVar := random])
    else (env[AuthKeyVar], env)
  }

  /**
   * Once `authKey()` has run with a usable random value, the next call returns
   * the same key, whatever random value it is offered, and changes nothing.
   */
  lemma AuthKeyStable(env: map<string, string>, random1: string, random2: string)
    requires random1 !in {"", PlaceholderKey}
    ensures AuthKeyStep(AuthKeyStep(env, random1).1, random2) == AuthKeyStep(env, random1)
  {
  }

  /** `<configPath or defaultConfigPath>/<name>.json` */
  function ConfigFile(roots: Roots, source: Source, name: string): (path: string)
    ensures |path| == |(if source == User then roots.configPath else roots.defaultConfigPath)| + |name| + 6
  {
    (if source == User then roots.configPath else roots.defaultConfigPath) + "/" + name + ".json"
  }

  /** The user file of a name is determined by the name. */
  lemma ConfigFileInjective(roots: Roots, n1: string, n2: string)
    requires ConfigFile(roots, User, n1) == ConfigFile(roots, User, n2)
    ensures n1 == n2
  {
    var p := roots.configPath;
    var f1, f2 := ConfigFile(roots, User, n1), ConfigFile(roots, User, n2);
    assert |n1| == |n2|;
    assert f1[|p| + 1..|p| + 1 + |n1|] == n1;
    assert f2[|p| + 1..|p| + 1 + |n2|] == n2;
  }

  /** `getYaml(name, type)`: the document in the chosen directory, or a TypeError naming the missing file. */
  function GetYaml(roots: Roots, files: map<string, Value>, name: string, source: Source): (r: Result<Value, Error>)
    ensures r.Ok? <==> ConfigFile(roots, source, name) in files
    ensures r.Ok? ==> r.value == files[ConfigFile(roots, source, name)]
    ensures r.Err? ==> r.error == TypeError(ConfigFile(roots, source, name) + " 文件不存在")
  {
    var file := ConfigFile(roots, source, name);
    if file !in files then Err(TypeError(file + " 文件不存在")) else Ok(files[file])
  }

  /** What `setYaml(name, data)` reports, given whether the write itself would fail. */
  function SetYamlOutcome(roots: Roots, files: map<string, Value>, name: string, ioError: Option<string>): (out: SetOutcome)
    ensures out == Delegated <==> name == EnvName
    ensures out == Returned(false) <==> name != EnvName && ConfigFile(roots, User, name) !in files
    ensures out == Returned(true) <==> name != EnvName && ConfigFile(roots, User, name) in files && ioError == None
    ensures out.Threw? <==> name != EnvName && ConfigFile(roots, User, name) in files && ioError.Some?
  {
    if name == EnvName then Delegated
    else if ConfigFile(roots, User, name) !in files then Returned(false)
    else if ioError.Some? then Threw(ioError.value)
    else Returned(true)
  }

  /** The files after `setYaml`: only a successful write changes them, and then only the named file. */
  function FilesAfterSet(roots: Roots, files: map<string, Value>, name: string, data: Value, out: SetOutcome): (r: map<string, Value>)
    ensures out != Returned(true) ==> r == files
    ensures out == Returned(true) ==> r.Keys == files.Keys + {ConfigFile(roots, User, name)}
    ensures out == Returned(true) ==> r[ConfigFile(roots, User, name)] == data
    ensures forall f :: f in files && f != ConfigFile(roots, User, name) ==> f in r && r[f] == files[f]
  {
    if out == Returned(true) then files[ConfigFile(roots, User, name) := data] else files
  }

  /**
   * After `setYaml` wrote a document, reading the same name back from the user
   * directory gives that document, and every other file reads as before.
   */
  lemma SetThenGet(roots: Roots, files: map<string, Value>, name: string, data: Value, name2: string, source2: Source)
    requires SetYamlOutcome(roots, files, name, None) == Returned(true)
    ensures GetYaml(roots, FilesAfterSet(roots, files, name, data, Returned(true)), name, User) == Ok(data)
    ensures ConfigFile(roots, source2, name2) != ConfigFile(roots, User, name) ==>
              GetYaml(roots, FilesAfterSet(roots, files, name, data, Returned(true)), name2, source2)
              == GetYaml(roots, files, name2, source2)
  {
  }

  /** `setYaml` never creates a config file that does not already exist. */
  lemma SetNeverCreates(roots: Roots, files: map<string, Value>, name: string, data: Value, ioError: Option<string>)
    ensures FilesAfterSet(roots, files, name, data, SetYamlOutcome(roots, files, name, ioError)).Keys == files.Keys
  {
  }

  /** The level `updateLevel(level)` sets: a non-empty argument, else LOG_LEVEL when non-empty, else 'info'. */
  function ChosenLevel(env: map<string, string>, level: Option<string>): (r: string)
    ensures r != ""
    ensures level.Some? && level.value != "" ==> r == level.value
    ensures !(level.Some? && level.value != "") && LogLevelVar in env && env[LogLevelVar] != "" ==> r == env[LogLevelVar]
    ensures !(level.Some? && level.value != "") && !(LogLevelVar in env && env[LogLevelVar] != "") ==> r == DefaultLevel
  {
    if level.Some? && level.value != "" then level.value
    else
      var v := EnvValue(env, LogLevelVar);
      if Truthy(v) then v.s else DefaultLevel
  }

  class Process {
    /** Where the config directories are. */
    const roots: Roots
    /** `process.env` */
    var env: map<string, string>
    /** Config files on disk, by path. */
    var files: map<string, Value>
    /** Documents handed to `setEnv`, oldest first; `setEnv` itself is not part of this model. */
    var envUpdates: seq<Value>
    /** `logger.level` */
    var logLevel: string
    /** The default config document `lint` merges a read `config.json` with. */
    const defaults: Value
    /** `lint`: validates a read `config.json` against the defaults; its implementation is not part of this model. */
    const lint: (Value, Value) -> Value
    /** The `config.json` document last read from disk. */
    ghost var source: Value
    /** The validated `config.json` (the module-level `cache`). */
    var cache: Value

    /** The cache always holds `lint`'s output for the last document read, never a raw document. */
    ghost predicate Valid()
      reads this`cache, this`source
    {
      cache == lint(defaults, source)
    }

    /** Module load: `config.json` is read once and linted into the cache. */
    constructor (roots: Roots, defaults: Value, lint: (Value, Value) -> Value, initial: Value,
                 env: map<string, string>, files: map<string, Value>, logLevel: string)
      ensures Valid() && source == initial
      ensures this.roots == roots && this.defaults == defaults && this.lint == lint
      ensures this.env == env && this.files == files && this.logLevel == logLevel && envUpdates == []
    {
      this.roots := roots;
      this.defaults := defaults;
      this.lint := lint;
      this.env := env;
      this.files := files;
      this.logLevel := logLevel;
      source := initial;
      cache := lint(defaults, initial);
      envUpdates := [];
    }

    /** `config()`: the linted form of the last document read; no disk access. */
    function Config(): (c: Value)
      requires Valid()
      reads this`cache, this`source
      ensures c == lint(defaults, source)
    {
      cache
    }

    /**
     * The watch callback: a changed `config.json` is merged with the defaults
     * by `lint` and replaces the cache wholesale.
     */
    method Revalidate(data: Value)
      modifies this`cache, this`source
      ensures Valid() && source == data
      ensures cache == lint(defaults, data)
    {
      source := data;
      cache := lint(defaults, data);
    }

    /** `authKey()`; `random` is the value `randomStr()` returns. */
    method AuthKey(random: string) returns (key: string)
      modifies this`env
      ensures (key, env) == AuthKeyStep(old(env), random)
    {
      var v := EnvValue(env, AuthKeyVar);
      if !Truthy(v) || v.s == PlaceholderKey {
        env := env[AuthKeyVar := random];
        return random;
      }
      key := v.s;
    }

    /**
     * `setYaml(name, data)`.  `ioError` is the message `fs.writeFileSync`
     * throws with, when the write fails.
     */
    method SetYaml(name: string, data: Value, ioError: Option<string>) returns (out: SetOutcome)
      modifies this`files, this`envUpdates
      ensures out == SetYamlOutcome(roots, old(files), name, ioError)
      ensures files == FilesAfterSet(roots, old(files), name, data, out)
      ensures envUpdates == if out == Delegated then old(envUpdates) + [data] else old(envUpdates)
    {
      if name == EnvName {
        envUpdates := envUpdates + [data];
        return Delegated;
      }
      var file := ConfigFile(roots, User, name);
      if file !in files {
        return Returned(false);
      }
      if ioError.Some? {
        return Threw(ioError.value);
      }
      files := files[file := data];
      out := Returned(true);
    }

    /** `setConfig(name, data)`: the same as `setYaml`. */
    method SetConfig(name: string, data: Value, ioError: Option<string>) returns (out: SetOutcome)
      modifies this`files, this`envUpdates
      ensures out == SetYamlOutcome(roots, old(files), name, ioError)
      ensures files == FilesAfterSet(roots, old(files), name, data, out)
      ensures envUpdates == if out == Delegated then old(envUpdates) + [data] else old(envUpdates)
    {
      out := SetYaml(name, data, ioError);
    }

    /** `updateLevel(level?)`: sets the logger's level and returns it. */
    method UpdateLevel(level: Option<string>) returns (r: string)
      modifies this`logLevel
      ensures r == ChosenLevel(env, level) && logLevel == r
    {
      if level.Some? && level.value != "" {
        logLevel := level.value;
        return level.value;
      }
      var v := EnvValue(env, LogLevelVar);
      var newLevel := if Truthy(v) then v.s else DefaultLevel;
      logLevel := newLevel;
      r := newLevel;
    }
  }
}
