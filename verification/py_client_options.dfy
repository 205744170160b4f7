/**
 * The Python client's options builder: setters validate their argument
 * with `is_valid_str_or_raise` and raise on a bad one; `build` wraps the
 * builder's own config object, so later setter calls show through.
 */
module PyClientOptions {
  import opened Wrappers
  import opened Text
  import opened StoreConfig
  import opened ClientConfig
  import opened PyUtils
  import Logging

  const INVALID_LEVEL_PREFIX := "not a valid log level, valid levels: "
  /** The five levels joined with ", ", in one fixed order. */
  const LEVEL_LISTING := "error, warn, info, debug, trace"
  const INVALID_LEVEL := ValueError(INVALID_LEVEL_PREFIX + LEVEL_LISTING)

  /** `ClientOptions`: it holds the builder's config object itself. */
  datatype ClientOptions = ClientOptions(ikvConfig: ConfigRef)

  /** The level checks of both logging setters: validated, lowered, one of the five. */
  function ValidLevel(level: PyValue): (r: Result<string, PyError>)
    ensures r.Ok? <==> IsValidStrOrRaise(level).Ok? && Lower(level.text) in LOG_LEVELS
    ensures r.Ok? ==> r.value == Lower(level.text) && r.value in LOG_LEVELS
    ensures IsValidStrOrRaise(level).Err? ==> r == Err(IsValidStrOrRaise(level).error)
    ensures IsValidStrOrRaise(level).Ok? && Lower(level.text) !in LOG_LEVELS ==> r == Err(INVALID_LEVEL)
  {
    var text :- IsValidStrOrRaise(level);
    match CheckedLevel(text)
    case None => Err(INVALID_LEVEL)
    case Some(lowered) => Ok(lowered)
  }

  /** What `with_file_logging` has written by the time it validates the path. */
  function PartialFileLogging(c: IKVStoreConfig, level: string): IKVStoreConfig
  {
    PutBool(PutString(c, RUST_CLIENT_LOG_LEVEL, level), RUST_CLIENT_LOG_TO_CONSOLE, false)
  }

  /**
   * A `with_file_logging` call that raised on its path leaves the console
   * off; unless a path was set before, the native logger then refuses the
   * configuration for want of an output.
   */
  lemma FailedFileLoggingHasNoOutput(c: IKVStoreConfig, level: string)
    requires RUST_CLIENT_LOG_FILE !in c.stringConfigs
    ensures Logging.SelectAppender(PartialFileLogging(c, level)) == Err(Logging.MISSING_OUTPUT)
    ensures !LoggingValid(PartialFileLogging(c, level))
  {
    assert !Logging.UseConsole(PartialFileLogging(c, level));
  }

  /**
   * What the builder keeps true of its config: one of the five levels, a
   * console flag, no blank string entry, and partition 0. A log file need
   * not be present with the console off: see `FailedFileLoggingHasNoOutput`.
   */
  predicate Kept(c: IKVStoreConfig)
  {
    RUST_CLIENT_LOG_LEVEL in c.stringConfigs && c.stringConfigs[RUST_CLIENT_LOG_LEVEL] in LOG_LEVELS
    && RUST_CLIENT_LOG_TO_CONSOLE in c.booleanConfigs
    && (forall k :: k in c.stringConfigs ==> !IsBlank(c.stringConfigs[k]))
    && PARTITION in c.intConfigs && c.intConfigs[PARTITION] == 0
  }

  /** None of the five levels is blank. */
  lemma LevelsNotBlank(level: string)
    requires level in LOG_LEVELS
    ensures !IsBlank(level)
  {
    assert !IsSpace(level[0]);
  }

  /** `ClientOptionsBuilder`. */
  class ClientOptionsBuilder {
    const ikvConfig: ConfigRef

    predicate Valid()
      reads this, ikvConfig
    {
      Kept(ikvConfig.config)
    }

    /** Console logging at "info" and partition 0. */
    constructor()
      ensures fresh(ikvConfig)
      ensures ikvConfig.config == PutInt(LOGGING_DEFAULTS, PARTITION, 0)
      ensures Valid()
    {
      LevelsNotBlank("info");
      ikvConfig := new ConfigRef(PutInt(ConsoleLogging(EMPTY_CONFIG, "info"), PARTITION, 0));
    }

    /** A setter of one string entry: the value must be a non-blank `str`. */
    method PutValidated(key: string, value: PyValue) returns (r: Result<ClientOptionsBuilder, PyError>)
      requires key in {MOUNT_DIRECTORY, STORE_NAME, ACCOUNT_ID, ACCOUNT_PASSKEY}
      modifies ikvConfig
      ensures IsValidStrOrRaise(value).Err? ==> r == Err(IsValidStrOrRaise(value).error) && ikvConfig.config == old(ikvConfig.config)
      ensures IsValidStrOrRaise(value).Ok? ==> r == Ok(this) && ikvConfig.config == PutString(old(ikvConfig.config), key, value.text)
      ensures old(Valid()) ==> Valid()
    {
      var text := IsValidStrOrRaise(value);
      if text.Err? {
        return Err(text.error);
      }
      ikvConfig.config := PutString(ikvConfig.config, key, text.value);
      return Ok(this);
    }

    method WithMountDirectory(dir: PyValue) returns (r: Result<ClientOptionsBuilder, PyError>)
      modifies ikvConfig
      ensures IsValidStrOrRaise(dir).Err? ==> r == Err(IsValidStrOrRaise(dir).error) && ikvConfig.config == old(ikvConfig.config)
      ensures IsValidStrOrRaise(dir).Ok? ==> r == Ok(this) && ikvConfig.config == PutString(old(ikvConfig.config), MOUNT_DIRECTORY, dir.text)
      ensures old(Valid()) ==> Valid()
    {
      r := PutValidated(MOUNT_DIRECTORY, dir);
    }

    method WithStoreName(name: PyValue) returns (r: Result<ClientOptionsBuilder, PyError>)
      modifies ikvConfig
      ensures IsValidStrOrRaise(name).Err? ==> r == Err(IsValidStrOrRaise(name).error) && ikvConfig.config == old(ikvConfig.config)
      ensures IsValidStrOrRaise(name).Ok? ==> r == Ok(this) && ikvConfig.config == PutString(old(ikvConfig.config), STORE_NAME, name.text)
      ensures old(Valid()) ==> Valid()
    {
      r := PutValidated(STORE_NAME, name);
    }

    method WithAccountId(id: PyValue) returns (r: Result<ClientOptionsBuilder, PyError>)
      modifies ikvConfig
      ensures IsValidStrOrRaise(id).Err? ==> r == Err(IsValidStrOrRaise(id).error) && ikvConfig.config == old(ikvConfig.config)
      ensures IsValidStrOrRaise(id).Ok? ==> r == Ok(this) && ikvConfig.config == PutString(old(ikvConfig.config), ACCOUNT_ID, id.text)
      ensures old(Valid()) ==> Valid()
    {
      r := PutValidated(ACCOUNT_ID, id);
    }

    method WithAccountPasskey(passkey: PyValue) returns (r: Result<ClientOptionsBuilder, PyError>)
      modifies ikvConfig
      ensures IsValidStrOrRaise(passkey).Err? ==> r == Err(IsValidStrOrRaise(passkey).error) && ikvConfig.config == old(ikvConfig.config)
      ensures IsValidStrOrRaise(passkey).Ok? ==>
        r == Ok(this) && ikvConfig.config == PutString(old(ikvConfig.config), ACCOUNT_PASSKEY, passkey.text)
      ensures old(Valid()) ==> Valid()
    {
      r := PutValidated(ACCOUNT_PASSKEY, passkey);
    }

    method WithConsoleLogging(level: PyValue) returns (r: Result<ClientOptionsBuilder, PyError>)
      modifies ikvConfig
      ensures ValidLevel(level).Err? ==> r == Err(ValidLevel(level).error) && ikvConfig.config == old(ikvConfig.config)
      ensures ValidLevel(level).Ok? ==> r == Ok(this) && ikvConfig.config == ConsoleLogging(old(ikvConfig.config), ValidLevel(level).value)
      ensures old(Valid()) ==> Valid()
      ensures old(LoggingValid(ikvConfig.config)) || r.Ok? ==> LoggingValid(ikvConfig.config)
    {
      var lowered := ValidLevel(level);
      if lowered.Err? {
        return Err(lowered.error);
      }
      LevelsNotBlank(lowered.value);
      ikvConfig.config := ConsoleLogging(ikvConfig.config, lowered.value);
      return Ok(this);
    }

    /**
     * The level is validated and stored, and the console turned off, before
     * the path is validated: a bad path raises with the first two changes
     * already made.
     */
    method WithFileLogging(level: PyValue, filepath: PyValue) returns (r: Result<ClientOptionsBuilder, PyError>)
      modifies ikvConfig
      ensures ValidLevel(level).Err? ==> r == Err(ValidLevel(level).error) && ikvConfig.config == old(ikvConfig.config)
      ensures ValidLevel(level).Ok? && IsValidStrOrRaise(filepath).Err? ==>
        r == Err(IsValidStrOrRaise(filepath).error)
        && ikvConfig.config == PartialFileLogging(old(ikvConfig.config), ValidLevel(level).value)
      ensures ValidLevel(level).Ok? && IsValidStrOrRaise(filepath).Ok? ==>
        r == Ok(this) && ikvConfig.config == FileLogging(old(ikvConfig.config), ValidLevel(level).value, filepath.text)
      ensures old(Valid()) ==> Valid()
      ensures r.Ok? ==> LoggingValid(ikvConfig.config)
    {
      var lowered := ValidLevel(level);
      if lowered.Err? {
        return Err(lowered.error);
      }
      LevelsNotBlank(lowered.value);
      ikvConfig.config := PartialFileLogging(ikvConfig.config, lowered.value);
      var path := IsValidStrOrRaise(filepath);
      if path.Err? {
        return Err(path.error);
      }
      ikvConfig.config := PutString(ikvConfig.config, RUST_CLIENT_LOG_FILE, path.value);
      return Ok(this);
    }

    /** The options hold this builder's config object, not a copy. */
    method Build() returns (options: ClientOptions)
      ensures options.ikvConfig == ikvConfig
    {
      return ClientOptions(ikvConfig);
    }
  }
}
