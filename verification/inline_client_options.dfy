/**
 * The older Java client options (package `io.inline.clients`): the same
 * builder as `io.inlined.clients`, except that the partition must be
 * positive and is written twice, there is no primary-key type, and `build`
 * also demands a primary-key field name that no setter ever writes, so it
 * never succeeds.
 *
 * The constants class this builder names defines neither the store name,
 * partition, consumer partition nor logging keys; the model gives them the
 * values the rest of the system uses, and calls the numeric entries
 * integer entries.
 */
module InlineClientOptions {
  import opened Wrappers
  import opened JavaExceptions
  import opened StoreConfig
  import opened ClientConfig
  import opened CkvSegment
  import InlinedClientOptions

  /** The consumer-partition key; only its being distinct from `PARTITION` matters here. */
  const KAFKA_CONSUMER_PARTITION := "kafka_partition"

  datatype ClientOptions = ClientOptions(config: IKVStoreConfig)

  /** The six entries `build` insists on. */
  predicate HasRequired(c: IKVStoreConfig)
  {
    InlinedClientOptions.HasRequired(c) && PRIMARY_KEY_FIELD_NAME in c.stringConfigs
  }

  /** `build` on a builder holding `c`: any missing required entry is an IllegalArgumentException. */
  function Built(c: IKVStoreConfig): (r: Result<ClientOptions, Thrown>)
    ensures r.Ok? <==> HasRequired(c)
    ensures r.Ok? ==> r.value.config == c
    ensures r.Err? ==> r.error == IllegalArgument("")
  {
    if InlinedClientOptions.HasRequired(c) && PRIMARY_KEY_FIELD_NAME in c.stringConfigs then Ok(ClientOptions(c))
    else Err(IllegalArgument(""))
  }

  /**
   * What the builder keeps true of its state: the logging entries are ones
   * the native logger accepts, every string entry is non-empty, a partition
   * is positive and mirrored as the consumer partition, and there is no
   * primary-key field name.
   */
  predicate Kept(c: IKVStoreConfig)
  {
    LoggingValid(c)
    && (forall k :: k in c.stringConfigs ==> c.stringConfigs[k] != "")
    && (PARTITION in c.intConfigs ==>
          c.intConfigs[PARTITION] > 0 && KAFKA_CONSUMER_PARTITION in c.intConfigs
          && c.intConfigs[KAFKA_CONSUMER_PARTITION] == c.intConfigs[PARTITION])
    && PRIMARY_KEY_FIELD_NAME !in c.stringConfigs
  }

  /** No sequence of setters leads to options: every kept state fails to build. */
  lemma KeptNeverBuilds(c: IKVStoreConfig)
    requires Kept(c)
    ensures Built(c) == Err(IllegalArgument(""))
  {
  }

  /** `ClientOptions.Builder` of the older package. */
  class Builder {
    var config: IKVStoreConfig

    predicate Valid()
      reads this
    {
      Kept(config)
    }

    /** The defaults: console logging at "info" and nothing else. */
    constructor()
      ensures config == LOGGING_DEFAULTS
      ensures Valid()
    {
      config := LOGGING_DEFAULTS;
    }

    method Build() returns (r: Result<ClientOptions, Thrown>)
      ensures r == Built(config)
      ensures Valid() ==> r == Err(IllegalArgument(""))
    {
      if !InlinedClientOptions.HasRequired(config) || PRIMARY_KEY_FIELD_NAME !in config.stringConfigs {
        return Err(IllegalArgument(""));
      }
      return Ok(ClientOptions(config));
    }

    /** A setter of one string entry: null or empty is refused. */
    method PutRequired(key: string, value: Option<string>) returns (r: Result<Builder, Thrown>)
      requires key in {MOUNT_DIRECTORY, STORE_NAME, ACCOUNT_ID, ACCOUNT_PASSKEY}
      modifies this
      ensures value.None? || value == Some("") ==> r == Err(IllegalArgument("")) && unchanged(this)
      ensures value.Some? && value != Some("") ==> r == Ok(this) && config == PutString(old(config), key, value.value)
      ensures old(Valid()) ==> Valid()
    {
      if value.None? || value.value == "" {
        return Err(IllegalArgument(""));
      }
      config := PutString(config, key, value.value);
      return Ok(this);
    }

    method WithMountDirectory(mountDirectory: Option<string>) returns (r: Result<Builder, Thrown>)
      modifies this
      ensures mountDirectory.None? || mountDirectory == Some("") ==> r == Err(IllegalArgument("")) && unchanged(this)
      ensures mountDirectory.Some? && mountDirectory != Some("") ==>
        r == Ok(this) && config == PutString(old(config), MOUNT_DIRECTORY, mountDirectory.value)
      ensures old(Valid()) ==> Valid()
    {
      r := PutRequired(MOUNT_DIRECTORY, mountDirectory);
    }

    method WithStoreName(storeName: Option<string>) returns (r: Result<Builder, Thrown>)
      modifies this
      ensures storeName.None? || storeName == Some("") ==> r == Err(IllegalArgument("")) && unchanged(this)
      ensures storeName.Some? && storeName != Some("") ==>
        r == Ok(this) && config == PutString(old(config), STORE_NAME, storeName.value)
      ensures old(Valid()) ==> Valid()
    {
      r := PutRequired(STORE_NAME, storeName);
    }

    method WithAccountId(accountId: Option<string>) returns (r: Result<Builder, Thrown>)
      modifies this
      ensures accountId.None? || accountId == Some("") ==> r == Err(IllegalArgument("")) && unchanged(this)
      ensures accountId.Some? && accountId != Some("") ==>
        r == Ok(this) && config == PutString(old(config), ACCOUNT_ID, accountId.value)
      ensures old(Valid()) ==> Valid()
    {
      r := PutRequired(ACCOUNT_ID, accountId);
    }

    method WithAccountPassKey(accountPassKey: Option<string>) returns (r: Result<Builder, Thrown>)
      modifies this
      ensures accountPassKey.None? || accountPassKey == Some("") ==> r == Err(IllegalArgument("")) && unchanged(this)
      ensures accountPassKey.Some? && accountPassKey != Some("") ==>
        r == Ok(this) && config == PutString(old(config), ACCOUNT_PASSKEY, accountPassKey.value)
      ensures old(Valid()) ==> Valid()
    {
      r := PutRequired(ACCOUNT_PASSKEY, accountPassKey);
    }

    /** Zero is refused here, unlike in the newer builder. */
    method WithStorePartition(partition: I32) returns (r: Result<Builder, Thrown>)
      modifies this
      ensures partition <= 0 ==> r == Err(IllegalArgument("")) && unchanged(this)
      ensures partition > 0 ==>
        r == Ok(this) && config == PutInt(PutInt(old(config), PARTITION, partition), KAFKA_CONSUMER_PARTITION, partition)
      ensures old(Valid()) ==> Valid()
    {
      if partition <= 0 {
        return Err(IllegalArgument(""));
      }
      config := PutInt(PutInt(config, PARTITION, partition), KAFKA_CONSUMER_PARTITION, partition);
      return Ok(this);
    }

    method WithConsoleLogging(level: Option<string>) returns (r: Result<Builder, Thrown>)
      modifies this
      ensures level.None? || level == Some("") ==> r == Err(IllegalArgument("")) && unchanged(this)
      ensures level.Some? && level != Some("") && CheckedLevel(level.value).None? ==>
        r == Err(IllegalArgument(InlinedClientOptions.LOG_LEVEL_MESSAGE)) && unchanged(this)
      ensures level.Some? && level != Some("") && CheckedLevel(level.value).Some? ==>
        r == Ok(this) && config == ConsoleLogging(old(config), CheckedLevel(level.value).value)
      ensures old(Valid()) ==> Valid()
    {
      if level.None? || level.value == "" {
        return Err(IllegalArgument(""));
      }
      var lowered := CheckedLevel(level.value);
      if lowered.None? {
        return Err(IllegalArgument(InlinedClientOptions.LOG_LEVEL_MESSAGE));
      }
      config := ConsoleLogging(config, lowered.value);
      return Ok(this);
    }

    /** The path is checked first, then the level. */
    method WithFileLogging(filePath: Option<string>, level: Option<string>) returns (r: Result<Builder, Thrown>)
      modifies this
      ensures filePath.None? || filePath == Some("") || level.None? || level == Some("") ==>
        r == Err(IllegalArgument("")) && unchanged(this)
      ensures filePath.Some? && filePath != Some("") && level.Some? && level != Some("") && CheckedLevel(level.value).None? ==>
        r == Err(IllegalArgument(InlinedClientOptions.LOG_LEVEL_MESSAGE)) && unchanged(this)
      ensures filePath.Some? && filePath != Some("") && level.Some? && level != Some("") && CheckedLevel(level.value).Some? ==>
        r == Ok(this) && config == FileLogging(old(config), CheckedLevel(level.value).value, filePath.value)
      ensures old(Valid()) ==> Valid()
    {
      if filePath.None? || filePath.value == "" {
        return Err(IllegalArgument(""));
      }
      if level.None? || level.value == "" {
        return Err(IllegalArgument(""));
      }
      var lowered := CheckedLevel(level.value);
      if lowered.None? {
        return Err(IllegalArgument(InlinedClientOptions.LOG_LEVEL_MESSAGE));
      }
      config := FileLogging(config, lowered.value, filePath.value);
      return Ok(this);
    }
  }
}
