/**
 * The Go client's options builder: setters that, on a bad argument,
 * record an error in the builder and return nil instead of the builder,
 * and a `Build` that hands out the builder's own maps together with the
 * last error recorded.
 */
module GoClientOptions {
  import opened Wrappers
  import opened Text
  import opened StoreConfig
  import opened ClientConfig

  const KAFKA_PROPERTY_PREFIX := "kafkaprop_"

  /** The entries the builder itself names, besides Kafka overrides. */
  const NAMED_KEYS: set<string> :=
    {MOUNT_DIRECTORY, STORE_NAME, ACCOUNT_ID, ACCOUNT_PASSKEY, RUST_CLIENT_LOG_LEVEL, RUST_CLIENT_LOG_FILE}

  /** `ClientOptions`: its config is made of the very maps the builder holds. */
  datatype ClientOptions = ClientOptions(config: ConfigRef)

  /** `fmt.Errorf("Invalid log level- %s", level)` on the lowered level. */
  function InvalidLevel(lowered: string): string
  {
    "Invalid log level- " + lowered
  }

  /**
   * A Kafka override can never overwrite an entry the builder names: its
   * key starts with `kafkaprop_`, and none of theirs starts with `k`.
   */
  lemma KafkaOverrideKeyIsFresh(key: string)
    ensures KAFKA_PROPERTY_PREFIX + key !in NAMED_KEYS
  {
    var k := KAFKA_PROPERTY_PREFIX + key;
    assert k[0] == 'k';
  }

  /**
   * What the builder keeps true of its maps: the logging entries are ones
   * the native logger accepts, every string entry is non-empty, and the
   * partition is 0, which no setter changes.
   */
  predicate Kept(c: IKVStoreConfig, err: Option<string>)
  {
    LoggingValid(c)
    && (forall k :: k in c.stringConfigs ==> c.stringConfigs[k] != "")
    && PARTITION in c.intConfigs && c.intConfigs[PARTITION] == 0
    && (err.Some? ==> err.value != "")
  }

  /** `ClientOptionsBuilder`. */
  class ClientOptionsBuilder {
    /** The five maps, which `Build` shares rather than copies. */
    const maps: ConfigRef
    var err: Option<string>

    predicate Valid()
      reads this, maps
    {
      Kept(maps.config, err)
    }

    /** `NewClientOptionsBuilder`: console logging at "info" and partition 0, no error. */
    constructor()
      ensures fresh(maps)
      ensures maps.config == PutInt(LOGGING_DEFAULTS, PARTITION, 0) && err == None
      ensures Valid()
    {
      maps := new ConfigRef(EMPTY_CONFIG);
      err := None;
      new;
      assert Lower("info") == "info";
      var _ := WithConsoleLogging("info");
      maps.config := PutInt(maps.config, PARTITION, 0);
      LoggingSettersKeepValid(maps.config, "info", "", PARTITION, "", 0);
    }

    /** A setter of one named string entry: an empty value records `message`. */
    method PutNamed(key: string, value: string, message: string) returns (r: ClientOptionsBuilder?)
      requires key in {MOUNT_DIRECTORY, STORE_NAME, ACCOUNT_ID, ACCOUNT_PASSKEY} && message != ""
      modifies this, maps
      ensures value == "" ==> r == null && err == Some(message) && maps.config == old(maps.config)
      ensures value != "" ==> r == this && err == old(err) && maps.config == PutString(old(maps.config), key, value)
      ensures old(Valid()) ==> Valid()
    {
      if value == "" {
        err := Some(message);
        return null;
      }
      maps.config := PutString(maps.config, key, value);
      return this;
    }

    method WithMountDirectory(dir: string) returns (r: ClientOptionsBuilder?)
      modifies this, maps
      ensures dir == "" ==> r == null && err == Some("mount directory cannot be empty") && maps.config == old(maps.config)
      ensures dir != "" ==> r == this && err == old(err) && maps.config == PutString(old(maps.config), MOUNT_DIRECTORY, dir)
      ensures old(Valid()) ==> Valid()
    {
      r := PutNamed(MOUNT_DIRECTORY, dir, "mount directory cannot be empty");
    }

    method WithStoreName(name: string) returns (r: ClientOptionsBuilder?)
      modifies this, maps
      ensures name == "" ==> r == null && err == Some("store name cannot be empty") && maps.config == old(maps.config)
      ensures name != "" ==> r == this && err == old(err) && maps.config == PutString(old(maps.config), STORE_NAME, name)
      ensures old(Valid()) ==> Valid()
    {
      r := PutNamed(STORE_NAME, name, "store name cannot be empty");
    }

    method WithAccountId(accountId: string) returns (r: ClientOptionsBuilder?)
      modifies this, maps
      ensures accountId == "" ==> r == null && err == Some("account-id cannot be empty") && maps.config == old(maps.config)
      ensures accountId != "" ==> r == this && err == old(err) && maps.config == PutString(old(maps.config), ACCOUNT_ID, accountId)
      ensures old(Valid()) ==> Valid()
    {
      r := PutNamed(ACCOUNT_ID, accountId, "account-id cannot be empty");
    }

    method WithAccountPasskey(accountPasskey: string) returns (r: ClientOptionsBuilder?)
      modifies this, maps
      ensures accountPasskey == "" ==> r == null && err == Some("account-passkey cannot be empty") && maps.config == old(maps.config)
      ensures accountPasskey != "" ==>
        r == this && err == old(err) && maps.config == PutString(old(maps.config), ACCOUNT_PASSKEY, accountPasskey)
      ensures old(Valid()) ==> Valid()
    {
      r := PutNamed(ACCOUNT_PASSKEY, accountPasskey, "account-passkey cannot be empty");
    }

    /** The value goes under `kafkaprop_` + key, beside every named entry. */
    method WithKafkaPropertyOverride(key: string, value: string) returns (r: ClientOptionsBuilder?)
      modifies this, maps
      ensures key == "" || value == "" ==> r == null && err == Some("kafka overrides cannot be empty") && maps.config == old(maps.config)
      ensures key != "" && value != "" ==>
        r == this && err == old(err) && maps.config == PutString(old(maps.config), KAFKA_PROPERTY_PREFIX + key, value)
      ensures forall k :: k in NAMED_KEYS ==> (k in maps.config.stringConfigs <==> k in old(maps.config).stringConfigs)
      ensures forall k :: k in NAMED_KEYS && k in maps.config.stringConfigs ==> maps.config.stringConfigs[k] == old(maps.config).stringConfigs[k]
      ensures old(Valid()) ==> Valid()
    {
      if key == "" || value == "" {
        err := Some("kafka overrides cannot be empty");
        return null;
      }
      KafkaOverrideKeyIsFresh(key);
      maps.config := PutString(maps.config, KAFKA_PROPERTY_PREFIX + key, value);
      return this;
    }

    method WithConsoleLogging(level: string) returns (r: ClientOptionsBuilder?)
      modifies this, maps
      ensures level == "" ==> r == null && err == Some("log level cannot be empty") && maps.config == old(maps.config)
      ensures level != "" && CheckedLevel(level).None? ==>
        r == null && err == Some(InvalidLevel(Lower(level))) && maps.config == old(maps.config)
      ensures level != "" && CheckedLevel(level).Some? ==>
        r == this && err == old(err) && maps.config == ConsoleLogging(old(maps.config), CheckedLevel(level).value)
      ensures old(Valid()) ==> Valid()
    {
      if level == "" {
        err := Some("log level cannot be empty");
        return null;
      }
      var lowered := CheckedLevel(level);
      if lowered.None? {
        err := Some(InvalidLevel(Lower(level)));
        return null;
      }
      maps.config := ConsoleLogging(maps.config, lowered.value);
      return this;
    }

    method WithFileLogging(filepath: string, level: string) returns (r: ClientOptionsBuilder?)
      modifies this, maps
      ensures filepath == "" || level == "" ==>
        r == null && err == Some("filepath or log level cannot be empty") && maps.config == old(maps.config)
      ensures filepath != "" && level != "" && CheckedLevel(level).None? ==>
        r == null && err == Some(InvalidLevel(Lower(level))) && maps.config == old(maps.config)
      ensures filepath != "" && level != "" && CheckedLevel(level).Some? ==>
        r == this && err == old(err) && maps.config == FileLogging(old(maps.config), CheckedLevel(level).value, filepath)
      ensures old(Valid()) ==> Valid()
    {
      if filepath == "" || level == "" {
        err := Some("filepath or log level cannot be empty");
        return null;
      }
      var lowered := CheckedLevel(level);
      if lowered.None? {
        err := Some(InvalidLevel(Lower(level)));
        return null;
      }
      maps.config := FileLogging(maps.config, lowered.value, filepath);
      return this;
    }

    /** The options share the builder's maps; the error is the last one any setter recorded. */
    method Build() returns (options: ClientOptions, e: Option<string>)
      ensures options.config == maps && e == err
    {
      return ClientOptions(maps), err;
    }
  }
}
