/**
 * The current Java reader: a native handle opened from the merged client
 * and server configuration, single reads that need the handle open, and
 * batch reads that send a buffer of size-prefixed serialized keys and
 * read back one value per entry of the answer. Keys are arbitrary objects,
 * serialized by the store's primary-key type.
 */
module InlinedReader {
  import opened Wrappers
  import opened ByteCodec
  import opened Text
  import opened JavaExceptions
  import opened SizePrefixed
  import opened ClientFraming
  import JniBatch
  import CkvSegment

  const UNINITIALIZED_HANDLE: int := -1

  /**
   * A key as the caller passes it, an `Object`: a string, a byte array, or
   * anything else. `rendered` is what its `toString` gives.
   */
  datatype KeyObject =
    | StringObject(text: string)
    | ByteArrayObject(bytes: Bytes, rendered: string)
    | OtherObject(rendered: string)

  /** `toString` of the key. */
  function Rendered(key: KeyObject): string
  {
    if key.StringObject? then key.text else key.rendered
  }

  /**
   * `serializePrimaryKey`: for a STRING key type the UTF-8 bytes of the
   * object's `toString`, for BYTES the object itself when it is a byte
   * array (any other object fails the cast), and UnsupportedOperationException
   * for every other type.
   */
  function SerializePrimaryKey(key: KeyObject, fieldType: CkvSegment.FieldType): (r: Result<Bytes, Thrown>)
  {
    match fieldType
    case STRING => Ok(Utf8(Rendered(key)))
    case BYTES => if key.ByteArrayObject? then Ok(key.bytes) else Err(Runtime)
    case _ => Err(UnsupportedOperation)
  }

  /**
   * Serialization succeeds exactly for the two supported types, and for
   * BYTES only on byte arrays; string keys serialize to bytes that decode
   * back to them, so distinct string keys stay distinct.
   */
  lemma SerializePrimaryKeyProperties(key: KeyObject, fieldType: CkvSegment.FieldType)
    ensures SerializePrimaryKey(key, fieldType).Ok? <==>
      fieldType == CkvSegment.STRING || (fieldType == CkvSegment.BYTES && key.ByteArrayObject?)
    ensures fieldType !in {CkvSegment.STRING, CkvSegment.BYTES} ==> SerializePrimaryKey(key, fieldType) == Err(UnsupportedOperation)
    ensures fieldType == CkvSegment.STRING ==> Utf8DecodeLenient(SerializePrimaryKey(key, fieldType).value) == Rendered(key)
    ensures fieldType == CkvSegment.BYTES && key.ByteArrayObject? ==> SerializePrimaryKey(key, fieldType).value == key.bytes
  {
    if fieldType == CkvSegment.STRING {
      Utf8LenientRoundTrip(Rendered(key));
    }
  }

  /** The keys serialized in order, or the first key's failure. */
  function SerializeAll(keys: seq<KeyObject>, fieldType: CkvSegment.FieldType): (r: Result<seq<Bytes>, Thrown>)
    ensures r.Ok? <==> forall i :: 0 <= i < |keys| ==> SerializePrimaryKey(keys[i], fieldType).Ok?
    ensures r.Ok? ==> |r.value| == |keys| && forall i :: 0 <= i < |keys| ==> r.value[i] == SerializePrimaryKey(keys[i], fieldType).value
    decreases |keys|
  {
    if keys == [] then Ok([])
    else
      match SerializePrimaryKey(keys[0], fieldType)
      case Err(e) => Err(e)
      case Ok(k) =>
        match SerializeAll(keys[1..], fieldType)
        case Err(e) =>
          assert forall j :: 1 <= j < |keys| ==> keys[j] == keys[1..][j - 1];
          Err(e)
        case Ok(ks) =>
          assert forall j :: 1 <= j < |keys| ==> keys[j] == keys[1..][j - 1];
          Ok([k] + ks)
  }

  /**
   * The key buffer a batch read sends: empty for no keys, otherwise the
   * serialized keys, size-prefixed, in order.
   */
  function KeyBuffer(keys: Option<seq<KeyObject>>, fieldType: CkvSegment.FieldType): Result<Bytes, Thrown>
  {
    if keys.None? || keys.value == [] then Ok([])
    else
      match SerializeAll(keys.value, fieldType)
      case Err(e) => Err(e)
      case Ok(serialized) => Packed(serialized)
  }

  /**
   * `sizePrefixedSerializedPrimaryKeys`: null or no keys give an empty
   * array; otherwise every key is serialized, the capacity summed, and the
   * size-prefixed keys written into a buffer of that capacity.
   */
  method SizePrefixedSerializedPrimaryKeys(keys: Option<seq<KeyObject>>, fieldType: CkvSegment.FieldType) returns (r: Result<Bytes, Thrown>)
    ensures r == KeyBuffer(keys, fieldType)
  {
    if keys.None? || |keys.value| == 0 {
      return Ok([]);
    }
    var primaryKeys := keys.value;
    var serialized: seq<Bytes> := [];
    for i := 0 to |primaryKeys|
      invariant |serialized| == i
      invariant forall j :: 0 <= j < i ==> SerializePrimaryKey(primaryKeys[j], fieldType) == Ok(serialized[j])
    {
      var key := SerializePrimaryKey(primaryKeys[i], fieldType);
      if key.Err? {
        SerializeAllFirstError(primaryKeys, fieldType, i);
        return Err(key.error);
      }
      serialized := serialized + [key.value];
    }
    ghost var all := SerializeAll(primaryKeys, fieldType);
    assert all.Ok? && all.value == serialized;
    r := SizePrefixedConcat(serialized);
  }

  /** The first key that does not serialize decides the failure. */
  lemma {:induction false} SerializeAllFirstError(keys: seq<KeyObject>, fieldType: CkvSegment.FieldType, i: nat)
    requires i < |keys| && SerializePrimaryKey(keys[i], fieldType).Err?
    requires forall j :: 0 <= j < i ==> SerializePrimaryKey(keys[j], fieldType).Ok?
    ensures SerializeAll(keys, fieldType) == Err(SerializePrimaryKey(keys[i], fieldType).error)
    decreases i
  {
    if i > 0 {
      assert forall j :: 0 <= j < i - 1 ==> keys[1..][j] == keys[j + 1];
      SerializeAllFirstError(keys[1..], fieldType, i - 1);
    }
  }

  /**
   * For keys that serialize to non-empty bytes, the key buffer reads back
   * as those bytes, in order.
   */
  lemma KeyBufferRoundTrip(keys: seq<KeyObject>, fieldType: CkvSegment.FieldType)
    requires keys != [] && KeyBuffer(Some(keys), fieldType).Ok?
    ensures SerializeAll(keys, fieldType).Ok?
    ensures Unframe(KeyBuffer(Some(keys), fieldType).value) == Some(SerializeAll(keys, fieldType).value)
  {
    PackedRoundTrip(SerializeAll(keys, fieldType).value);
  }

  /**
   * The values the native batch read answers with never read back as null:
   * it leaves out every id without a value, so the list holds one value per
   * id that has one, and is shorter than the key list whenever some key has
   * none.
   */
  lemma NativeAnswerHasNoNulls(ids: seq<Bytes>, fetch: Bytes -> Option<Bytes>)
    requires Framable(JniBatch.Present(ids, fetch))
    ensures DecodeNullable(Frame(JniBatch.Present(ids, fetch))).Ok?
    ensures var values := DecodeNullable(Frame(JniBatch.Present(ids, fetch))).value;
      |values| == |JniBatch.Present(ids, fetch)| <= |ids| && forall i :: 0 <= i < |values| ==> values[i].Some?
  {
    DecodeNullableOfFrame(JniBatch.Present(ids, fetch));
  }

  /**
   * The reader. The native library is seen through `readField` and
   * `batchReadField`, functions of the handle, the serialized key(s) and
   * the field name; `batchRequests` records every key buffer sent to the
   * batch read.
   */
  class Reader {
    var handle: int
    const primaryKeyType: CkvSegment.FieldType
    const readField: (int, Bytes, string) -> Option<Bytes>
    const batchReadField: (int, Bytes, string) -> Bytes
    ghost var batchRequests: seq<Bytes>

    /** A new reader is not open. */
    constructor(primaryKeyType: CkvSegment.FieldType, readField: (int, Bytes, string) -> Option<Bytes>, batchReadField: (int, Bytes, string) -> Bytes)
      ensures handle == UNINITIALIZED_HANDLE && batchRequests == []
      ensures this.primaryKeyType == primaryKeyType && this.readField == readField && this.batchReadField == batchReadField
    {
      handle := UNINITIALIZED_HANDLE;
      this.primaryKeyType := primaryKeyType;
      this.readField := readField;
      this.batchReadField := batchReadField;
      batchRequests := [];
    }

    /**
     * `startupReader`: nothing happens once a handle is set; otherwise the
     * handle is what the native open gives (`openResult`), and a failed open
     * is passed on with the reader still closed.
     */
    method StartupReader(openResult: Result<int, Thrown>) returns (failure: Option<Thrown>)
      modifies this
      ensures old(handle) != UNINITIALIZED_HANDLE ==> failure.None? && handle == old(handle)
      ensures old(handle) == UNINITIALIZED_HANDLE && openResult.Err? ==> failure == Some(openResult.error) && handle == UNINITIALIZED_HANDLE
      ensures old(handle) == UNINITIALIZED_HANDLE && openResult.Ok? ==> failure.None? && handle == openResult.value
      ensures batchRequests == old(batchRequests)
    {
      if handle != UNINITIALIZED_HANDLE {
        return None;
      }
      if openResult.Err? {
        return Some(openResult.error);
      }
      handle := openResult.value;
      return None;
    }

    /**
     * `shutdownReader`: the native close is called on whatever handle is
     * set (`closeFailure` is its failure, if any); when it returns, the
     * handle is reset.
     */
    method ShutdownReader(closeFailure: Option<Thrown>) returns (failure: Option<Thrown>)
      modifies this
      ensures failure == closeFailure
      ensures closeFailure.Some? ==> handle == old(handle)
      ensures closeFailure.None? ==> handle == UNINITIALIZED_HANDLE
      ensures batchRequests == old(batchRequests)
    {
      if closeFailure.Some? {
        return closeFailure;
      }
      handle := UNINITIALIZED_HANDLE;
      return None;
    }

    /** A single read: IllegalStateException unless open, then the key's serialization, then the native read. */
    function GetBytesValue(primaryKey: KeyObject, fieldName: string): (r: Result<Option<Bytes>, Thrown>)
      reads this
      ensures handle == UNINITIALIZED_HANDLE ==> r == Err(IllegalState(""))
      ensures r.Ok? <==> handle != UNINITIALIZED_HANDLE && SerializePrimaryKey(primaryKey, primaryKeyType).Ok?
      ensures r.Ok? ==> r.value == readField(handle, SerializePrimaryKey(primaryKey, primaryKeyType).value, fieldName)
    {
      if handle == UNINITIALIZED_HANDLE then Err(IllegalState(""))
      else
        match SerializePrimaryKey(primaryKey, primaryKeyType)
        case Err(e) => Err(e)
        case Ok(key) => Ok(readField(handle, key, fieldName))
    }

    /** `getStringValue`: the bytes read, decoded as UTF-8; null stays null. */
    function GetStringValue(primaryKey: KeyObject, fieldName: string): (r: Result<Option<string>, Thrown>)
      reads this
      ensures r.Ok? <==> GetBytesValue(primaryKey, fieldName).Ok?
      ensures r.Err? ==> r.error == GetBytesValue(primaryKey, fieldName).error
      ensures r.Ok? ==> (r.value.None? <==> GetBytesValue(primaryKey, fieldName).value.None?)
      ensures r.Ok? && r.value.Some? ==> r.value.value == Utf8DecodeLenient(GetBytesValue(primaryKey, fieldName).value.value)
    {
      match GetBytesValue(primaryKey, fieldName)
      case Err(e) => Err(e)
      case Ok(None) => Ok(None)
      case Ok(Some(b)) => Ok(Some(Utf8DecodeLenient(b)))
    }

    /** A value stored as the UTF-8 bytes of a string reads back as that string. */
    lemma GetStringValueOfUtf8(primaryKey: KeyObject, fieldName: string, s: string)
      requires GetBytesValue(primaryKey, fieldName) == Ok(Some(Utf8(s)))
      ensures GetStringValue(primaryKey, fieldName) == Ok(Some(s))
    {
      Utf8LenientRoundTrip(s);
    }

    /**
     * `multiGetRawByteValues` drained: null or no keys give no values and
     * send nothing; otherwise the key buffer is sent and every entry of
     * the answer read back, empty ones as null.
     */
    method MultiGetBytesValue(primaryKeys: Option<seq<KeyObject>>, fieldName: string) returns (r: Result<seq<Option<Bytes>>, Thrown>)
      modifies this
      ensures handle == old(handle)
      ensures primaryKeys.None? || primaryKeys.value == [] ==> r == Ok([]) && batchRequests == old(batchRequests)
      ensures KeyBuffer(primaryKeys, primaryKeyType).Err? ==> r == Err(KeyBuffer(primaryKeys, primaryKeyType).error) && batchRequests == old(batchRequests)
      ensures primaryKeys.Some? && primaryKeys.value != [] && KeyBuffer(primaryKeys, primaryKeyType).Ok? ==>
        var request := KeyBuffer(primaryKeys, primaryKeyType).value;
        batchRequests == old(batchRequests) + [request] && r == DecodeNullable(batchReadField(handle, request, fieldName))
    {
      if primaryKeys.None? || |primaryKeys.value| == 0 {
        return Ok([]);
      }
      var request := SizePrefixedSerializedPrimaryKeys(primaryKeys, primaryKeyType);
      if request.Err? {
        return Err(request.error);
      }
      batchRequests := batchRequests + [request.value];
      var result := batchReadField(handle, request.value, fieldName);
      r := DrainNullable(result);
    }

    /** `multiGetStringValue`: as the bytes, each non-null value decoded as UTF-8. */
    method MultiGetStringValue(primaryKeys: Option<seq<KeyObject>>, fieldName: string) returns (r: Result<seq<Option<string>>, Thrown>)
      modifies this
      ensures handle == old(handle)
      ensures primaryKeys.None? || primaryKeys.value == [] ==> r == Ok([]) && batchRequests == old(batchRequests)
      ensures KeyBuffer(primaryKeys, primaryKeyType).Err? ==> r == Err(KeyBuffer(primaryKeys, primaryKeyType).error) && batchRequests == old(batchRequests)
      ensures primaryKeys.Some? && primaryKeys.value != [] && KeyBuffer(primaryKeys, primaryKeyType).Ok? ==>
        var request := KeyBuffer(primaryKeys, primaryKeyType).value;
        batchRequests == old(batchRequests) + [request]
        && r == DecodeStrings(DecodeNullable(batchReadField(handle, request, fieldName)))
    {
      var bytes := MultiGetBytesValue(primaryKeys, fieldName);
      r := DecodeStrings(bytes);
    }
  }
}
