/**
 * The Go reader (`DefaultIKVReader`): a handle that is -1 while closed,
 * a startup that merges the client's configuration over the server's and
 * opens the index, and single reads that accept a string or a byte-slice
 * key. Go strings are byte strings, and are modelled as bytes here.
 *
 * The native library and the writer that fetches the server configuration
 * are outside the model: their outcomes are parameters.
 */
module GoReader {
  import opened Wrappers
  import opened ByteCodec
  import opened StoreConfig
  import GoClientOptions
  import ConfigMerge

  const BAD_HANDLE: int := -1
  const CANNOT_FETCH := "cannot fetch server supplied options: "
  const CANNOT_INITIALIZE := "cannot initialize reader: "
  const KEY_TYPE_ERROR := "key can only be a string or []byte"

  /** A key passed as `interface{}`: a string, a byte slice, or anything else. */
  datatype GoKey = GoString(s: Bytes) | GoByteSlice(b: Bytes) | GoOther

  /** The bytes a single read looks up, or the error for an unsupported key type. */
  function KeyBytes(key: GoKey): (r: Result<Bytes, string>)
    ensures r.Err? <==> key.GoOther?
    ensures r.Err? ==> r.error == KEY_TYPE_ERROR
    ensures key.GoString? ==> r == Ok(key.s)
    ensures key.GoByteSlice? ==> r == Ok(key.b)
  {
    match key
    case GoString(s) => Ok(s)
    case GoByteSlice(b) => Ok(b)
    case GoOther => Err(KEY_TYPE_ERROR)
  }

  /** `string(bv)`: a missing value (a nil slice) reads as the empty string. */
  function StringOf(bv: Option<Bytes>): Bytes
  {
    bv.GetOr([])
  }

  /** `GetStringValue` cannot tell a missing value from an empty one. */
  lemma MissingReadsAsEmpty()
    ensures StringOf(None) == StringOf(Some([])) == []
  {
  }

  class DefaultIKVReader {
    const clientOptions: GoClientOptions.ClientOptions
    var handle: int

    constructor(clientOptions: GoClientOptions.ClientOptions)
      ensures this.clientOptions == clientOptions && handle == BAD_HANDLE
    {
      this.clientOptions := clientOptions;
      handle := BAD_HANDLE;
    }

    /**
     * `createIKVConfig`, given the server's configuration or the writer's
     * error: the error is wrapped, the configuration has the client's
     * entries merged over it.
     */
    method CreateIKVConfig(serverConfig: Result<IKVStoreConfig, string>) returns (r: Result<IKVStoreConfig, string>)
      ensures serverConfig.Err? ==> r == Err(CANNOT_FETCH + serverConfig.error)
      ensures serverConfig.Ok? ==> r == Ok(ConfigMerge.Merged(serverConfig.value, clientOptions.config.config))
    {
      if serverConfig.Err? {
        return Err(CANNOT_FETCH + serverConfig.error);
      }
      var merged := ConfigMerge.MergeConfigs(serverConfig.value, clientOptions.config.config);
      return Ok(merged);
    }

    /**
     * `Startup`: nothing to do once open; otherwise the merged configuration
     * goes to `open`, whose handle (or error) is `openResult(config)`.
     */
    method Startup(serverConfig: Result<IKVStoreConfig, string>, openResult: IKVStoreConfig -> Result<int, string>)
      returns (err: Option<string>)
      modifies this
      ensures old(handle) != BAD_HANDLE ==> err == None && handle == old(handle)
      ensures old(handle) == BAD_HANDLE && serverConfig.Err? ==>
        err == Some(CANNOT_FETCH + serverConfig.error) && handle == BAD_HANDLE
      ensures old(handle) == BAD_HANDLE && serverConfig.Ok? ==>
        var outcome := openResult(ConfigMerge.Merged(serverConfig.value, clientOptions.config.config));
        (outcome.Err? ==> err == Some(CANNOT_INITIALIZE + outcome.error) && handle == BAD_HANDLE)
        && (outcome.Ok? ==> err == None && handle == outcome.value)
    {
      if handle != BAD_HANDLE {
        return None;
      }
      var config := CreateIKVConfig(serverConfig);
      if config.Err? {
        return Some(config.error);
      }
      var outcome := openResult(config.value);
      if outcome.Err? {
        return Some(CANNOT_INITIALIZE + outcome.error);
      }
      handle := outcome.value;
      return None;
    }

    /** `Shutdown`: nothing to do once closed; a failed close keeps the handle, a good one resets it. */
    method Shutdown(closeErr: Option<string>) returns (err: Option<string>)
      modifies this
      ensures old(handle) == BAD_HANDLE ==> err == None && handle == BAD_HANDLE
      ensures old(handle) != BAD_HANDLE ==> err == closeErr
      ensures old(handle) != BAD_HANDLE && closeErr.Some? ==> handle == old(handle)
      ensures old(handle) != BAD_HANDLE && closeErr.None? ==> handle == BAD_HANDLE
    {
      if handle == BAD_HANDLE {
        return None;
      }
      if closeErr.Some? {
        return closeErr;
      }
      handle := BAD_HANDLE;
      return None;
    }

    /** `GetBytesValue` over the native lookup: the handle is passed as it is, open or not. */
    method GetBytesValue(key: GoKey, fieldname: string, getFieldValue: (int, Bytes, string) -> Option<Bytes>)
      returns (value: Option<Bytes>, err: Option<string>)
      ensures KeyBytes(key).Err? ==> value == None && err == Some(KeyBytes(key).error)
      ensures KeyBytes(key).Ok? ==> value == getFieldValue(handle, KeyBytes(key).value, fieldname) && err == None
    {
      var bytes := KeyBytes(key);
      if bytes.Err? {
        return None, Some(bytes.error);
      }
      return getFieldValue(handle, bytes.value, fieldname), None;
    }

    /** `GetStringValue`: the error passed on with "", otherwise the value's bytes as a string. */
    method GetStringValue(key: GoKey, fieldname: string, getFieldValue: (int, Bytes, string) -> Option<Bytes>)
      returns (value: Bytes, err: Option<string>)
      ensures KeyBytes(key).Err? ==> value == [] && err == Some(KeyBytes(key).error)
      ensures KeyBytes(key).Ok? ==> value == StringOf(getFieldValue(handle, KeyBytes(key).value, fieldname)) && err == None
    {
      var bv, e := GetBytesValue(key, fieldname, getFieldValue);
      if e.Some? {
        return [], e;
      }
      return StringOf(bv), None;
    }
  }
}
