/**
 * What the client-option builders of the Java, Go and Python clients
 * share: the five log levels, the logging keys they write, and the fact
 * that the logging part of every configuration they build is one the
 * native library's logger accepts.
 */
module ClientConfig {
  import opened Wrappers
  import opened Text
  import opened StoreConfig
  import Logging

  const LOG_LEVELS: set<string> := {"error", "warn", "info", "debug", "trace"}

  function PutString(c: IKVStoreConfig, key: string, value: string): IKVStoreConfig
  {
    c.(stringConfigs := c.stringConfigs[key := value])
  }

  function PutInt(c: IKVStoreConfig, key: string, value: int): IKVStoreConfig
  {
    c.(intConfigs := c.intConfigs[key := value])
  }

  function PutBool(c: IKVStoreConfig, key: string, value: bool): IKVStoreConfig
  {
    c.(booleanConfigs := c.booleanConfigs[key := value])
  }

  /** Console logging at `level`: the level stored and the console flag set. */
  function ConsoleLogging(c: IKVStoreConfig, level: string): IKVStoreConfig
  {
    PutBool(PutString(c, RUST_CLIENT_LOG_LEVEL, level), RUST_CLIENT_LOG_TO_CONSOLE, true)
  }

  /** File logging at `level` into `path`: the level stored, the console flag cleared and the path stored. */
  function FileLogging(c: IKVStoreConfig, level: string, path: string): IKVStoreConfig
  {
    PutString(PutBool(PutString(c, RUST_CLIENT_LOG_LEVEL, level), RUST_CLIENT_LOG_TO_CONSOLE, false), RUST_CLIENT_LOG_FILE, path)
  }

  /** Every builder starts out logging to the console at "info". */
  const LOGGING_DEFAULTS: IKVStoreConfig := ConsoleLogging(EMPTY_CONFIG, "info")

  /** The level a setter stores: the argument lower-cased, when that is one of the five. */
  function CheckedLevel(level: string): (r: Option<string>)
    ensures r.Some? <==> Lower(level) in LOG_LEVELS
    ensures r.Some? ==> r.value == Lower(level) && |r.value| == |level|
  {
    var lowered := Lower(level);
    if lowered in LOG_LEVELS then Some(lowered) else None
  }

  /**
   * The logging part of a configuration the builders keep: one of the five
   * levels, a console flag, and a log file whenever the console is off.
   */
  predicate LoggingValid(c: IKVStoreConfig)
  {
    RUST_CLIENT_LOG_LEVEL in c.stringConfigs && c.stringConfigs[RUST_CLIENT_LOG_LEVEL] in LOG_LEVELS
    && RUST_CLIENT_LOG_TO_CONSOLE in c.booleanConfigs
    && (!c.booleanConfigs[RUST_CLIENT_LOG_TO_CONSOLE] ==> RUST_CLIENT_LOG_FILE in c.stringConfigs)
  }

  /** The defaults and both logging setters establish it; storing any other string or any number keeps it. */
  lemma LoggingSettersKeepValid(c: IKVStoreConfig, level: string, path: string, key: string, s: string, n: int)
    ensures LoggingValid(LOGGING_DEFAULTS)
    ensures level in LOG_LEVELS ==> LoggingValid(ConsoleLogging(c, level)) && LoggingValid(FileLogging(c, level, path))
    ensures LoggingValid(c) && key != RUST_CLIENT_LOG_LEVEL ==> LoggingValid(PutString(c, key, s))
    ensures LoggingValid(c) ==> LoggingValid(PutInt(c, key, n))
  {
  }

  /**
   * The native logger accepts what the builders produce: it logs to the
   * console when the flag is set and to the file otherwise, at the stored
   * level.
   */
  lemma LoggerAccepts(c: IKVStoreConfig)
    requires LoggingValid(c)
    ensures Logging.SelectAppender(c)
      == if c.booleanConfigs[RUST_CLIENT_LOG_TO_CONSOLE] then Ok(Logging.Console) else Ok(Logging.File(c.stringConfigs[RUST_CLIENT_LOG_FILE]))
    ensures Logging.Level(c).Ok? && Logging.LevelName(Logging.Level(c).value) == c.stringConfigs[RUST_CLIENT_LOG_LEVEL]
  {
    var level := c.stringConfigs[RUST_CLIENT_LOG_LEVEL];
    var l := if level == "error" then Logging.Error
      else if level == "warn" then Logging.Warn
      else if level == "info" then Logging.Info
      else if level == "debug" then Logging.Debug
      else Logging.Trace;
    assert Logging.LevelName(l) == level;
    Logging.LevelNamesAccepted(c, l);
  }

  /** A configuration held by reference, so that whoever holds it sees every later change. */
  class ConfigRef {
    var config: IKVStoreConfig

    constructor(config: IKVStoreConfig)
      ensures this.config == config
    {
      this.config := config;
    }
  }
}
