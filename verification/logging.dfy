/**
 * The native library's logging setup: where log lines go (console or a
 * file), the level filter read from the store configuration, and the one
 * process-wide handle that the first successful setup installs and later
 * setups reconfigure.
 */
module Logging {
  import opened Wrappers
  import opened Text
  import opened StoreConfig

  const LEVEL_KEY := "rust_client_log_level"
  const CONSOLE_KEY := "rust_client_log_to_console"
  const FILE_KEY := "rust_client_log_file"

  const MISSING_LEVEL := "rust_client_log_level is a required config"
  const MISSING_OUTPUT := "log output must be configured, either use rust_client_log_to_console or rust_client_log_file"

  datatype LevelFilter = Error | Warn | Info | Debug | Trace

  /** The lower-case name each filter is spelled with in the configuration. */
  function LevelName(l: LevelFilter): string
  {
    match l
    case Error => "error"
    case Warn => "warn"
    case Info => "info"
    case Debug => "debug"
    case Trace => "trace"
  }

  function InvalidLevel(other: string): string
  {
    "Invalid logging level: " + other + ". Allowed: error|warn|info|debug|trace"
  }

  /**
   * `level`: the configured level, lower-cased, must name one of the five
   * filters; a missing key and any other name are errors.
   */
  function Level(config: IKVStoreConfig): (r: Result<LevelFilter, string>)
    ensures LEVEL_KEY !in config.stringConfigs ==> r == Err(MISSING_LEVEL)
    ensures LEVEL_KEY in config.stringConfigs ==>
      var s := Lower(config.stringConfigs[LEVEL_KEY]);
      (r.Err? <==> forall l :: LevelName(l) != s)
      && (r.Ok? ==> LevelName(r.value) == s)
      && (r.Err? ==> r.error == InvalidLevel(s))
  {
    if LEVEL_KEY !in config.stringConfigs then Err(MISSING_LEVEL)
    else
      var s := Lower(config.stringConfigs[LEVEL_KEY]);
      if s == "error" then assert LevelName(Error) == s; Ok(Error)
      else if s == "warn" then assert LevelName(Warn) == s; Ok(Warn)
      else if s == "info" then assert LevelName(Info) == s; Ok(Info)
      else if s == "debug" then assert LevelName(Debug) == s; Ok(Debug)
      else if s == "trace" then assert LevelName(Trace) == s; Ok(Trace)
      else
        assert forall l :: LevelName(l) != s;
        Err(InvalidLevel(s))
  }

  /** Distinct filters have distinct names, so a name selects one filter. */
  lemma LevelNameInjective(a: LevelFilter, b: LevelFilter)
    requires LevelName(a) == LevelName(b)
    ensures a == b
  {
  }

  /** Lower-casing leaves a lower-case name alone. */
  lemma {:induction false} LowerOfLowerName(s: string)
    requires forall i :: 0 <= i < |s| ==> 'a' <= s[i] <= 'z'
    ensures Lower(s) == s
  {
    forall i | 0 <= i < |s|
      ensures Lower(s)[i] == s[i]
    {
      assert LowerChar(s[i]) == s[i];
    }
  }

  /** Each filter's own name, in any ASCII case that lower-cases to it, configures that filter. */
  lemma LevelOfName(config: IKVStoreConfig, l: LevelFilter)
    requires LEVEL_KEY in config.stringConfigs && Lower(config.stringConfigs[LEVEL_KEY]) == LevelName(l)
    ensures Level(config) == Ok(l)
  {
    var r := Level(config);
    assert r.Ok?;
    LevelNameInjective(r.value, l);
  }

  /** Every filter is reachable: configuring its exact name yields it. */
  lemma LevelNamesAccepted(config: IKVStoreConfig, l: LevelFilter)
    requires LEVEL_KEY in config.stringConfigs && config.stringConfigs[LEVEL_KEY] == LevelName(l)
    ensures Level(config) == Ok(l)
  {
    LowerOfLowerName(LevelName(l));
    LevelOfName(config, l);
  }

  /** `use_console`: the console flag is present and set. */
  function UseConsole(config: IKVStoreConfig): (b: bool)
    ensures b <==> CONSOLE_KEY in config.booleanConfigs && config.booleanConfigs[CONSOLE_KEY]
  {
    var yes := if CONSOLE_KEY in config.booleanConfigs then Some(config.booleanConfigs[CONSOLE_KEY]) else None;
    yes.Some? && yes.value
  }

  /** `use_file`: the configured file path, if any. */
  function UseFile(config: IKVStoreConfig): (r: Option<string>)
    ensures r.Some? <==> FILE_KEY in config.stringConfigs
    ensures r.Some? ==> r.value == config.stringConfigs[FILE_KEY]
  {
    if FILE_KEY in config.stringConfigs then Some(config.stringConfigs[FILE_KEY]) else None
  }

  datatype Appender = Console | File(path: string)

  /**
   * The appender choice: the console when its flag is set, whatever the
   * file setting; otherwise the configured file; with neither, an error.
   */
  function SelectAppender(config: IKVStoreConfig): (r: Result<Appender, string>)
    ensures UseConsole(config) ==> r == Ok(Console)
    ensures !UseConsole(config) && FILE_KEY in config.stringConfigs ==> r == Ok(File(config.stringConfigs[FILE_KEY]))
    ensures !UseConsole(config) && FILE_KEY !in config.stringConfigs ==> r == Err(MISSING_OUTPUT)
  {
    if UseConsole(config) then Ok(Console)
    else match UseFile(config)
      case None => Err(MISSING_OUTPUT)
      case Some(path) => Ok(File(path))
  }

  /** What the installed handle logs: where, and from which level up. */
  datatype LogConfig = LogConfig(appender: Appender, level: LevelFilter)

  /**
   * The configuration a setup builds, in the source's order: the appender
   * first, so an output error wins over a level error. `fileOpens` stands
   * for whether the log file can be opened.
   */
  function BuildConfig(config: IKVStoreConfig, fileOpens: bool): (r: Result<LogConfig, string>)
    ensures r.Ok? <==> SelectAppender(config).Ok? && (SelectAppender(config).value.File? ==> fileOpens) && Level(config).Ok?
    ensures r.Ok? ==> r.value == LogConfig(SelectAppender(config).value, Level(config).value)
    ensures SelectAppender(config).Err? ==> r == Err(SelectAppender(config).error)
    ensures SelectAppender(config).Ok? && (SelectAppender(config).value.File? ==> fileOpens) && Level(config).Err?
      ==> r == Err(Level(config).error)
  {
    var appender :- SelectAppender(config);
    if appender.File? && !fileOpens then Err("log file could not be opened")
    else
      var level :- Level(config);
      Ok(LogConfig(appender, level))
  }

  /**
   * The process-wide handle: `None` until a setup succeeds. `inits` counts
   * how often the logger was initialised, which the source allows once.
   */
  class LogHandle {
    var handle: Option<LogConfig>
    var inits: nat

    /** At most one initialisation, and a handle exactly once there was one. */
    predicate Valid()
      reads this
    {
      inits <= 1 && (handle.None? <==> inits == 0)
    }

    constructor ()
      ensures Valid() && handle.None? && inits == 0
    {
      handle := None;
      inits := 0;
    }

    /**
     * `configure_logging`: build the configuration; on success install it
     * when there is no handle yet (`initOk` stands for whether the logging
     * facade accepts a logger) and otherwise replace the handle's
     * configuration. A failed setup leaves the handle as it was.
     */
    method Configure(config: IKVStoreConfig, fileOpens: bool, initOk: bool) returns (r: Result<(), string>)
      requires Valid()
      modifies this
      ensures Valid()
      ensures BuildConfig(config, fileOpens).Err? ==> r == Err(BuildConfig(config, fileOpens).error)
      ensures r.Ok? <==> BuildConfig(config, fileOpens).Ok? && (old(handle).None? ==> initOk)
      ensures r.Ok? ==> handle == Some(BuildConfig(config, fileOpens).value)
      ensures r.Err? ==> handle == old(handle) && inits == old(inits)
      ensures inits == (if r.Ok? && old(handle).None? then 1 else old(inits))
    {
      var built := BuildConfig(config, fileOpens);
      if built.Err? {
        return Err(built.error);
      }
      if handle.None? {
        if !initOk {
          return Err("a logger is already set");
        }
        inits := inits + 1;
        handle := Some(built.value);
      } else {
        handle := Some(built.value);
      }
      return Ok(());
    }
  }
}
