/**
 * The Java client's options (package `io.inlined.clients`): a builder that
 * checks each setting as it is given, starts out logging to the console at
 * "info", and builds only when the account, passkey, store name, mount
 * directory and partition are all present and a primary-key type has been
 * chosen.
 */
module InlinedClientOptions {
  import opened Wrappers
  import opened JavaExceptions
  import opened StoreConfig
  import opened ClientConfig
  import opened CkvSegment
  import ContextAccessor
  import Logging

  /** What `checkArgument` reports for a rejected level: the template unformatted, the set appended. */
  const LOG_LEVEL_MESSAGE := "log-level should be one of: {} [[error, warn, info, debug, trace]]"

  datatype ClientOptions = ClientOptions(config: IKVStoreConfig, primaryKeyType: FieldType)

  /** The private constructor: an UNKNOWN key type is refused first, then a null one. */
  function NewClientOptions(config: IKVStoreConfig, primaryKeyType: Option<FieldType>): (r: Result<ClientOptions, Thrown>)
    ensures r.Ok? <==> primaryKeyType.Some? && primaryKeyType.value != UNKNOWN
    ensures r.Ok? ==> r.value == ClientOptions(config, primaryKeyType.value)
    ensures primaryKeyType == Some(UNKNOWN) ==> r == Err(IllegalArgument(""))
    ensures primaryKeyType == None ==> r == Err(NullPointer)
  {
    match primaryKeyType
    case None => Err(NullPointer)
    case Some(t) => if t == UNKNOWN then Err(IllegalArgument("")) else Ok(ClientOptions(config, t))
  }

  /** A protobuf `get...OrThrow` on a string entry: a missing key is an IllegalArgumentException. */
  function StringOrThrow(c: IKVStoreConfig, key: string): Result<string, Thrown>
  {
    if key in c.stringConfigs then Ok(c.stringConfigs[key]) else Err(IllegalArgument(""))
  }

  /** The entries `build` insists on. */
  predicate HasRequired(c: IKVStoreConfig)
  {
    ACCOUNT_ID in c.stringConfigs && ACCOUNT_PASSKEY in c.stringConfigs && STORE_NAME in c.stringConfigs
    && MOUNT_DIRECTORY in c.stringConfigs && PARTITION in c.intConfigs
  }

  /**
   * `build` on a builder holding `c` and `primaryKeyType`: a missing
   * required entry is an IllegalArgumentException, whatever the key type;
   * with all of them present, the constructor's checks decide.
   */
  function Built(c: IKVStoreConfig, primaryKeyType: Option<FieldType>): (r: Result<ClientOptions, Thrown>)
    ensures r.Ok? <==> HasRequired(c) && primaryKeyType.Some? && primaryKeyType.value != UNKNOWN
    ensures r.Ok? ==> r.value.config == c && Some(r.value.primaryKeyType) == primaryKeyType
    ensures !HasRequired(c) ==> r == Err(IllegalArgument(""))
    ensures HasRequired(c) ==> r == NewClientOptions(c, primaryKeyType)
  {
    var _ :- StringOrThrow(c, ACCOUNT_ID);
    var _ :- StringOrThrow(c, ACCOUNT_PASSKEY);
    var _ :- StringOrThrow(c, STORE_NAME);
    var _ :- StringOrThrow(c, MOUNT_DIRECTORY);
    if PARTITION !in c.intConfigs then Err(IllegalArgument(""))
    else NewClientOptions(c, primaryKeyType)
  }

  /**
   * `createUserStoreContextInitializer` on options holding `config`: store
   * name, account id and passkey, each required.
   */
  function CreateUserStoreContextInitializer(config: IKVStoreConfig): (r: Result<ContextAccessor.Initializer, Thrown>)
    ensures r.Ok? <==> STORE_NAME in config.stringConfigs && ACCOUNT_ID in config.stringConfigs && ACCOUNT_PASSKEY in config.stringConfigs
    ensures r.Err? ==> r.error == IllegalArgument("")
    ensures r.Ok? ==> r.value == ContextAccessor.Initializer(
      Some(config.stringConfigs[ACCOUNT_ID]), Some(config.stringConfigs[ACCOUNT_PASSKEY]), Some(config.stringConfigs[STORE_NAME]))
  {
    var storeName :- StringOrThrow(config, STORE_NAME);
    var accountId :- StringOrThrow(config, ACCOUNT_ID);
    var accountPasskey :- StringOrThrow(config, ACCOUNT_PASSKEY);
    Ok(ContextAccessor.Initializer(Some(accountId), Some(accountPasskey), Some(storeName)))
  }

  /**
   * What the builder keeps true of its state: the logging entries are ones
   * the native logger accepts, every string entry is non-empty, the
   * partition is not negative and the key type is never UNKNOWN.
   */
  predicate Kept(c: IKVStoreConfig, primaryKeyType: Option<FieldType>)
  {
    LoggingValid(c)
    && (forall k :: k in c.stringConfigs ==> c.stringConfigs[k] != "")
    && (PARTITION in c.intConfigs ==> c.intConfigs[PARTITION] >= 0)
    && primaryKeyType != Some(UNKNOWN)
  }

  /**
   * Options built from a kept state can be used as they are: their
   * initializer names the account, passkey and store given to the builder,
   * none of them empty, and the native logger accepts their logging entries.
   */
  lemma BuiltOptionsUsable(c: IKVStoreConfig, primaryKeyType: Option<FieldType>)
    requires Kept(c, primaryKeyType) && Built(c, primaryKeyType).Ok?
    ensures var init := CreateUserStoreContextInitializer(Built(c, primaryKeyType).value.config);
      init.Ok? && init.value.accountId == Some(c.stringConfigs[ACCOUNT_ID])
      && init.value.accountPasskey == Some(c.stringConfigs[ACCOUNT_PASSKEY])
      && init.value.storeName == Some(c.stringConfigs[STORE_NAME])
      && init.value.accountId.value != "" && init.value.accountPasskey.value != "" && init.value.storeName.value != ""
    ensures Logging.SelectAppender(c).Ok? && Logging.Level(c).Ok?
  {
    LoggerAccepts(c);
  }

  /**
   * `ClientOptions.Builder`. Every setter either throws, leaving the
   * builder as it was, or records its setting and returns the builder
   * itself for chaining.
   */
  class Builder {
    var config: IKVStoreConfig
    var primaryKeyType: Option<FieldType>

    predicate Valid()
      reads this
    {
      Kept(config, primaryKeyType)
    }

    /** The defaults: console logging at "info", nothing else, no key type. */
    constructor()
      ensures config == LOGGING_DEFAULTS && primaryKeyType == None
      ensures Valid()
    {
      config := LOGGING_DEFAULTS;
      primaryKeyType := None;
    }

    method Build() returns (r: Result<ClientOptions, Thrown>)
      ensures r == Built(config, primaryKeyType)
    {
      if ACCOUNT_ID !in config.stringConfigs || ACCOUNT_PASSKEY !in config.stringConfigs
        || STORE_NAME !in config.stringConfigs || MOUNT_DIRECTORY !in config.stringConfigs
        || PARTITION !in config.intConfigs
      {
        return Err(IllegalArgument(""));
      }
      if primaryKeyType == Some(UNKNOWN) {
        return Err(IllegalArgument(""));
      }
      if primaryKeyType.None? {
        return Err(NullPointer);
      }
      return Ok(ClientOptions(config, primaryKeyType.value));
    }

    method UseStringPrimaryKey() returns (r: Builder)
      modifies this
      ensures r == this && config == old(config) && primaryKeyType == Some(STRING)
      ensures old(Valid()) ==> Valid()
    {
      primaryKeyType := Some(STRING);
      return this;
    }

    method UseBytesPrimaryKey() returns (r: Builder)
      modifies this
      ensures r == this && config == old(config) && primaryKeyType == Some(BYTES)
      ensures old(Valid()) ==> Valid()
    {
      primaryKeyType := Some(BYTES);
      return this;
    }

    /** A setter of one required string entry: null or empty is refused. */
    method PutRequired(key: string, value: Option<string>) returns (r: Result<Builder, Thrown>)
      requires key in {MOUNT_DIRECTORY, STORE_NAME, ACCOUNT_ID, ACCOUNT_PASSKEY}
      modifies this
      ensures value.None? || value == Some("") ==> r == Err(IllegalArgument("")) && unchanged(this)
      ensures value.Some? && value != Some("") ==>
        r == Ok(this) && config == PutString(old(config), key, value.value) && primaryKeyType == old(primaryKeyType)
      ensures old(Valid()) ==> Valid()
    {
      if value.None? || value.value == "" {
        return Err(IllegalArgument(""));
      }
      config := PutString(config, key, value.value);
      return Ok(this);
    }

    method WithMountDirectory(mountDirectory: Option<string>) returns (r: Result<Builder, Thrown>)
      modifies this
      ensures mountDirectory.None? || mountDirectory == Some("") ==> r == Err(IllegalArgument("")) && unchanged(this)
      ensures mountDirectory.Some? && mountDirectory != Some("") ==>
        r == Ok(this) && config == PutString(old(config), MOUNT_DIRECTORY, mountDirectory.value) && primaryKeyType == old(primaryKeyType)
      ensures old(Valid()) ==> Valid()
    {
      r := PutRequired(MOUNT_DIRECTORY, mountDirectory);
    }

    method WithStoreName(storeName: Option<string>) returns (r: Result<Builder, Thrown>)
      modifies this
      ensures storeName.None? || storeName == Some("") ==> r == Err(IllegalArgument("")) && unchanged(this)
      ensures storeName.Some? && storeName != Some("") ==>
        r == Ok(this) && config == PutString(old(config), STORE_NAME, storeName.value) && primaryKeyType == old(primaryKeyType)
      ensures old(Valid()) ==> Valid()
    {
      r := PutRequired(STORE_NAME, storeName);
    }

    method WithAccountId(accountId: Option<string>) returns (r: Result<Builder, Thrown>)
      modifies this
      ensures accountId.None? || accountId == Some("") ==> r == Err(IllegalArgument("")) && unchanged(this)
      ensures accountId.Some? && accountId != Some("") ==>
        r == Ok(this) && config == PutString(old(config), ACCOUNT_ID, accountId.value) && primaryKeyType == old(primaryKeyType)
      ensures old(Valid()) ==> Valid()
    {
      r := PutRequired(ACCOUNT_ID, accountId);
    }

    method WithAccountPassKey(accountPassKey: Option<string>) returns (r: Result<Builder, Thrown>)
      modifies this
      ensures accountPassKey.None? || accountPassKey == Some("") ==> r == Err(IllegalArgument("")) && unchanged(this)
      ensures accountPassKey.Some? && accountPassKey != Some("") ==>
        r == Ok(this) && config == PutString(old(config), ACCOUNT_PASSKEY, accountPassKey.value) && primaryKeyType == old(primaryKeyType)
      ensures old(Valid()) ==> Valid()
    {
      r := PutRequired(ACCOUNT_PASSKEY, accountPassKey);
    }

    method WithStorePartition(partition: I32) returns (r: Result<Builder, Thrown>)
      modifies this
      ensures partition < 0 ==> r == Err(IllegalArgument("")) && unchanged(this)
      ensures partition >= 0 ==>
        r == Ok(this) && config == PutInt(old(config), PARTITION, partition) && primaryKeyType == old(primaryKeyType)
      ensures old(Valid()) ==> Valid()
    {
      if partition < 0 {
        return Err(IllegalArgument(""));
      }
      config := PutInt(config, PARTITION, partition);
      return Ok(this);
    }

    method WithConsoleLogging(level: Option<string>) returns (r: Result<Builder, Thrown>)
      modifies this
      ensures level.None? || level == Some("") ==> r == Err(IllegalArgument("")) && unchanged(this)
      ensures level.Some? && level != Some("") && CheckedLevel(level.value).None? ==>
        r == Err(IllegalArgument(LOG_LEVEL_MESSAGE)) && unchanged(this)
      ensures level.Some? && level != Some("") && CheckedLevel(level.value).Some? ==>
        r == Ok(this) && config == ConsoleLogging(old(config), CheckedLevel(level.value).value)
        && primaryKeyType == old(primaryKeyType)
      ensures old(Valid()) ==> Valid()
    {
      if level.None? || level.value == "" {
        return Err(IllegalArgument(""));
      }
      var lowered := CheckedLevel(level.value);
      if lowered.None? {
        return Err(IllegalArgument(LOG_LEVEL_MESSAGE));
      }
      config := ConsoleLogging(config, lowered.value);
      return Ok(this);
    }

    /** The path is checked first, then the level. */
    method WithFileLogging(filePath: Option<string>, level: Option<string>) returns (r: Result<Builder, Thrown>)
      modifies this
      ensures filePath.None? || filePath == Some("") || level.None? || level == Some("") ==>
        r == Err(IllegalArgument("")) && unchanged(this)
      ensures filePath.Some? && filePath != Some("") && level.Some? && level != Some("") && CheckedLevel(level.value).None? ==>
        r == Err(IllegalArgument(LOG_LEVEL_MESSAGE)) && unchanged(this)
      ensures filePath.Some? && filePath != Some("") && level.Some? && level != Some("") && CheckedLevel(level.value).Some? ==>
        r == Ok(this) && config == FileLogging(old(config), CheckedLevel(level.value).value, filePath.value)
        && primaryKeyType == old(primaryKeyType)
      ensures old(Valid()) ==> Valid()
    {
      if filePath.None? || filePath.value == "" {
        return Err(IllegalArgument(""));
      }
      if level.None? || level.value == "" {
        return Err(IllegalArgument(""));
      }
      var lowered := CheckedLevel(level.value);
      if lowered.None? {
        return Err(IllegalArgument(LOG_LEVEL_MESSAGE));
      }
      config := FileLogging(config, lowered.value, filePath.value);
      return Ok(this);
    }
  }
}
