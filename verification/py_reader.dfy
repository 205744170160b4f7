/**
 * The Python reader (`IKVReaderImpl`): startup resolves the native library,
 * fetches the server's configuration and opens the index with the merged
 * configuration; single reads turn the primary key into bytes by its
 * Python type before the native lookup.
 *
 * The native library, the binary download and the server call are outside
 * the model: their outcomes are parameters.
 */
module PyReader {
  import opened Wrappers
  import opened ByteCodec
  import opened Text
  import opened StoreConfig
  import opened PyUtils
  import PyClientOptions
  import ConfigMerge

  const CLIENT_OPTIONS_REQUIRED := "client_options are required and can't be None"
  const CANNOT_DOWNLOAD := "Cannot download IKV native binary"
  const CANNOT_FETCH_CONFIG := "cannot fetch startup cfg from IKV cloud for given client options"
  const UNSUPPORTED_KEY := "unsupported primary_key type, supported: str/bytes/bytearray"

  /**
   * The bytes a single read looks up: a `str` UTF-8 encoded, `bytes` as
   * they are, a `bytearray` copied to `bytes`; any other type is a
   * TypeError.
   */
  function KeyBytes(primaryKey: PyValue): (r: Result<Bytes, PyError>)
    ensures r.Err? <==> primaryKey.PyOther?
    ensures r.Err? ==> r.error == TypeError(UNSUPPORTED_KEY)
    ensures primaryKey.PyStr? ==> r == Ok(Utf8(primaryKey.text))
    ensures primaryKey.PyBytes? ==> r == Ok(primaryKey.bytes)
    ensures primaryKey.PyByteArray? ==> r == Ok(primaryKey.contents)
  {
    match primaryKey
    case PyStr(s) => Ok(Utf8(s))
    case PyBytes(b) => Ok(b)
    case PyByteArray(b) => Ok(b)
    case PyOther => Err(TypeError(UNSUPPORTED_KEY))
  }

  /** A `str` key and its UTF-8 bytes, as `bytes` or `bytearray`, look up the same entry. */
  lemma KeyFormsAgree(s: string)
    ensures KeyBytes(PyStr(s)) == KeyBytes(PyBytes(Utf8(s))) == KeyBytes(PyByteArray(Utf8(s)))
    ensures KeyBytes(PyStr(s)).value != [] <==> s != ""
  {
  }

  /** A protobuf string map read with `[]`: a missing key reads as the empty string. */
  function ProtoGet(m: map<string, string>, key: string): string
  {
    if key in m then m[key] else ""
  }

  /**
   * A configuration without a mount directory fails the validation with
   * the blank-string ValueError, and the read leaves the key behind, empty;
   * reading a present key changes nothing.
   */
  lemma MissingMountDirectory(config: IKVStoreConfig)
    ensures MOUNT_DIRECTORY !in config.stringConfigs ==>
      IsValidStrOrRaise(PyStr(ProtoGet(config.stringConfigs, MOUNT_DIRECTORY))) == Err(ValueError(EXPECTING_NON_EMPTY_STRING))
    ensures MOUNT_DIRECTORY in config.stringConfigs <==>
      config.stringConfigs[MOUNT_DIRECTORY := ProtoGet(config.stringConfigs, MOUNT_DIRECTORY)] == config.stringConfigs
  {
    if MOUNT_DIRECTORY !in config.stringConfigs {
      assert IsBlank("");
    }
  }

  /** The native reader a successful startup holds: the library it loaded and the configuration it opened. */
  datatype NativeReader = NativeReader(dllPath: string, openedWith: Option<IKVStoreConfig>)

  class IKVReaderImpl {
    const clientOptions: PyClientOptions.ClientOptions
    var nativeReader: Option<NativeReader>

    constructor(clientOptions: PyClientOptions.ClientOptions)
      ensures this.clientOptions == clientOptions && nativeReader == None
    {
      this.clientOptions := clientOptions;
      nativeReader := None;
    }

    /** `IKVReaderImpl(client_options)`: `None` is a TypeError. */
    static method New(clientOptions: Option<PyClientOptions.ClientOptions>) returns (r: Result<IKVReaderImpl, PyError>)
      ensures clientOptions.None? ==> r == Err(TypeError(CLIENT_OPTIONS_REQUIRED))
      ensures clientOptions.Some? ==>
        r.Ok? && fresh(r.value) && r.value.clientOptions == clientOptions.value && r.value.nativeReader == None
    {
      if clientOptions.None? {
        return Err(TypeError(CLIENT_OPTIONS_REQUIRED));
      }
      var reader := new IKVReaderImpl(clientOptions.value);
      return Ok(reader);
    }

    /**
     * `startup`, given what the binary manager answers (`dllPath`) and what
     * the server supplies (`serverConfig`): the mount directory is read from
     * the protobuf map, where a missing key reads as "" (and is inserted),
     * and must be a non-blank string; a missing library or server
     * configuration is a RuntimeError, and otherwise the index opens with
     * the client's entries merged over the server's.
     */
    method Startup(dllPath: Result<Option<string>, PyError>, serverConfig: Option<IKVStoreConfig>) returns (r: Result<(), PyError>)
      modifies this, clientOptions.ikvConfig
      ensures var client := old(clientOptions.ikvConfig.config);
        var mountDir := ProtoGet(client.stringConfigs, MOUNT_DIRECTORY);
        && clientOptions.ikvConfig.config == client.(stringConfigs := client.stringConfigs[MOUNT_DIRECTORY := mountDir])
        && if IsValidStrOrRaise(PyStr(mountDir)).Err? then
          r == Err(IsValidStrOrRaise(PyStr(mountDir)).error) && nativeReader == old(nativeReader)
        else if dllPath.Err? then r == Err(dllPath.error) && nativeReader == old(nativeReader)
        else if dllPath.value.None? then r == Err(RuntimeError(CANNOT_DOWNLOAD)) && nativeReader == old(nativeReader)
        else if serverConfig.None? then
          r == Err(RuntimeError(CANNOT_FETCH_CONFIG)) && nativeReader == Some(NativeReader(dllPath.value.value, None))
        else
          r == Ok(()) && nativeReader == Some(NativeReader(dllPath.value.value, Some(ConfigMerge.Merged(serverConfig.value, client))))
    {
      var client := clientOptions.ikvConfig.config;
      var mountDir := ProtoGet(client.stringConfigs, MOUNT_DIRECTORY);
      clientOptions.ikvConfig.config := client.(stringConfigs := client.stringConfigs[MOUNT_DIRECTORY := mountDir]);
      var valid := IsValidStrOrRaise(PyStr(mountDir));
      if valid.Err? {
        return Err(valid.error);
      }
      if dllPath.Err? {
        return Err(dllPath.error);
      }
      if dllPath.value.None? {
        return Err(RuntimeError(CANNOT_DOWNLOAD));
      }
      nativeReader := Some(NativeReader(dllPath.value.value, None));
      if serverConfig.None? {
        return Err(RuntimeError(CANNOT_FETCH_CONFIG));
      }
      var merged := ConfigMerge.MergeConfigs(serverConfig.value, client);
      nativeReader := Some(NativeReader(dllPath.value.value, Some(merged)));
      return Ok(());
    }

    /** `shutdown`: closes the native reader, which stays in place; before startup there is none to close. */
    method Shutdown() returns (r: Result<(), PyError>)
      ensures r == if nativeReader.None? then Err(AttributeError) else Ok(())
    {
      if nativeReader.None? {
        return Err(AttributeError);
      }
      return Ok(());
    }

    /**
     * `get_bytes_value` over the native lookup `lookup`: the key's bytes by
     * its type; before startup there is no native reader to ask.
     */
    method GetBytesValue(primaryKey: PyValue, fieldName: string, lookup: (Bytes, string) -> Option<Bytes>)
      returns (r: Result<Option<Bytes>, PyError>)
      ensures KeyBytes(primaryKey).Err? ==> r == Err(KeyBytes(primaryKey).error)
      ensures KeyBytes(primaryKey).Ok? && nativeReader.None? ==> r == Err(AttributeError)
      ensures KeyBytes(primaryKey).Ok? && nativeReader.Some? ==> r == Ok(lookup(KeyBytes(primaryKey).value, fieldName))
    {
      var key := KeyBytes(primaryKey);
      if key.Err? {
        return Err(key.error);
      }
      if nativeReader.None? {
        return Err(AttributeError);
      }
      return Ok(lookup(key.value, fieldName));
    }

    /** `get_string_value`: the same key dispatch over the native string lookup. */
    method GetStringValue(primaryKey: PyValue, fieldName: string, lookup: (Bytes, string) -> Option<string>)
      returns (r: Result<Option<string>, PyError>)
      ensures KeyBytes(primaryKey).Err? ==> r == Err(KeyBytes(primaryKey).error)
      ensures KeyBytes(primaryKey).Ok? && nativeReader.None? ==> r == Err(AttributeError)
      ensures KeyBytes(primaryKey).Ok? && nativeReader.Some? ==> r == Ok(lookup(KeyBytes(primaryKey).value, fieldName))
    {
      var key := KeyBytes(primaryKey);
      if key.Err? {
        return Err(key.error);
      }
      if nativeReader.None? {
        return Err(AttributeError);
      }
      return Ok(lookup(key.value, fieldName));
    }
  }
}
