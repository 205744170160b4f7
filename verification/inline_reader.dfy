/**
 * The older Java reader: keys arrive already serialized, and a single read
 * is gated by the type the field accessor names.
 */
module InlineReader {
  import opened Wrappers
  import opened ByteCodec
  import opened Text
  import opened JavaExceptions
  import opened SizePrefixed
  import opened ClientFraming
  import opened PrimaryKeys
  import CkvSegment

  const UNINITIALIZED_HANDLE: int := -1

  /** A field's name and the type the caller reads it as. */
  datatype FieldAccessor = FieldAccessor(fieldName: string, fieldType: CkvSegment.FieldType)

  /** The keys' serialized bytes, in order. */
  function SerializedKeys(keys: seq<PrimaryKey>): (r: seq<Bytes>)
    ensures |r| == |keys| && forall i :: 0 <= i < |keys| ==> r[i] == keys[i].serializedKey
  {
    seq(|keys|, i requires 0 <= i < |keys| => keys[i].serializedKey)
  }

  /**
   * Keys made by the factories read back from the key buffer as their bytes,
   * in order, when the buffer fits.
   */
  lemma KeyBufferRoundTrip(keys: seq<PrimaryKey>)
    requires Packed(SerializedKeys(keys)).Ok?
    ensures Unframe(Packed(SerializedKeys(keys)).value) == Some(SerializedKeys(keys))
  {
    PackedRoundTrip(SerializedKeys(keys));
  }

  /**
   * The reader. The native library is seen through `readField` and
   * `batchReadField`; `batchRequests` records every key buffer sent to the
   * batch read.
   */
  class Reader {
    var handle: int
    const readField: (int, Bytes, string) -> Option<Bytes>
    const batchReadField: (int, Bytes, string) -> Bytes
    ghost var batchRequests: seq<Bytes>

    /** A new reader is not open. */
    constructor(readField: (int, Bytes, string) -> Option<Bytes>, batchReadField: (int, Bytes, string) -> Bytes)
      ensures handle == UNINITIALIZED_HANDLE && batchRequests == []
      ensures this.readField == readField && this.batchReadField == batchReadField
    {
      handle := UNINITIALIZED_HANDLE;
      this.readField := readField;
      this.batchReadField := batchReadField;
      batchRequests := [];
    }

    /**
     * `startup`: nothing happens when already open; otherwise the handle is
     * what the native open gives, and a failed open is passed on with the
     * reader still closed.
     */
    method Startup(openResult: Result<int, Thrown>) returns (failure: Option<Thrown>)
      modifies this
      ensures old(handle) != UNINITIALIZED_HANDLE ==> failure.None? && handle == old(handle)
      ensures old(handle) == UNINITIALIZED_HANDLE && openResult.Err? ==> failure == Some(openResult.error) && handle == UNINITIALIZED_HANDLE
      ensures old(handle) == UNINITIALIZED_HANDLE && openResult.Ok? ==> failure.None? && handle == openResult.value
      ensures batchRequests == old(batchRequests)
    {
      if handle != UNINITIALIZED_HANDLE {
        return None;
      }
      if openResult.Err? {
        return Some(openResult.error);
      }
      handle := openResult.value;
      return None;
    }

    /** `shutdown`: the native close on whatever handle is set; when it returns, the handle is reset. */
    method Shutdown(closeFailure: Option<Thrown>) returns (failure: Option<Thrown>)
      modifies this
      ensures failure == closeFailure
      ensures closeFailure.Some? ==> handle == old(handle)
      ensures closeFailure.None? ==> handle == UNINITIALIZED_HANDLE
      ensures batchRequests == old(batchRequests)
    {
      if closeFailure.Some? {
        return closeFailure;
      }
      handle := UNINITIALIZED_HANDLE;
      return None;
    }

    /**
     * `getBytesValue`: IllegalStateException unless open; null, without a
     * native read, unless the accessor reads BYTES; otherwise the native read.
     */
    function GetBytesValue(key: PrimaryKey, accessor: FieldAccessor): (r: Result<Option<Bytes>, Thrown>)
      reads this
      ensures r.Err? <==> handle == UNINITIALIZED_HANDLE
      ensures r.Err? ==> r.error == IllegalState("")
      ensures r.Ok? && accessor.fieldType != CkvSegment.BYTES ==> r.value.None?
      ensures r.Ok? && accessor.fieldType == CkvSegment.BYTES ==> r.value == readField(handle, key.serializedKey, accessor.fieldName)
    {
      if handle == UNINITIALIZED_HANDLE then Err(IllegalState(""))
      else if accessor.fieldType != CkvSegment.BYTES then Ok(None)
      else Ok(readField(handle, key.serializedKey, accessor.fieldName))
    }

    /**
     * `getStringValue`: as the bytes, gated on STRING instead, and the value
     * decoded as UTF-8.
     */
    function GetStringValue(key: PrimaryKey, accessor: FieldAccessor): (r: Result<Option<string>, Thrown>)
      reads this
      ensures r.Err? <==> handle == UNINITIALIZED_HANDLE
      ensures r.Err? ==> r.error == IllegalState("")
      ensures r.Ok? && accessor.fieldType != CkvSegment.STRING ==> r.value.None?
      ensures r.Ok? && accessor.fieldType == CkvSegment.STRING ==>
        var v := readField(handle, key.serializedKey, accessor.fieldName);
        (r.value.None? <==> v.None?) && (v.Some? ==> r.value.value == Utf8DecodeLenient(v.value))
    {
      if handle == UNINITIALIZED_HANDLE then Err(IllegalState(""))
      else if accessor.fieldType != CkvSegment.STRING then Ok(None)
      else
        match readField(handle, key.serializedKey, accessor.fieldName)
        case None => Ok(None)
        case Some(b) => Ok(Some(Utf8DecodeLenient(b)))
    }

    /** A field is never answered through both accessors: at most one of the two single reads can be non-null. */
    lemma SingleReadsExclusive(key: PrimaryKey, accessor: FieldAccessor)
      ensures !(GetBytesValue(key, accessor).Ok? && GetBytesValue(key, accessor).value.Some?
                && GetStringValue(key, accessor).Ok? && GetStringValue(key, accessor).value.Some?)
    {
    }

    /**
     * `multiGetBytesValue`: null or no keys give no values and send
     * nothing; otherwise the keys' buffer is sent and every entry of the
     * answer read back, empty ones as null. The type is not checked.
     */
    method MultiGetBytesValue(keys: Option<seq<PrimaryKey>>, accessor: FieldAccessor) returns (r: Result<seq<Option<Bytes>>, Thrown>)
      modifies this
      ensures handle == old(handle)
      ensures keys.None? || keys.value == [] ==> r == Ok([]) && batchRequests == old(batchRequests)
      ensures keys.Some? && keys.value != [] && Packed(SerializedKeys(keys.value)).Err? ==>
        r == Err(Packed(SerializedKeys(keys.value)).error) && batchRequests == old(batchRequests)
      ensures keys.Some? && keys.value != [] && Packed(SerializedKeys(keys.value)).Ok? ==>
        var request := Packed(SerializedKeys(keys.value)).value;
        batchRequests == old(batchRequests) + [request] && r == DecodeNullable(batchReadField(handle, request, accessor.fieldName))
    {
      if keys.None? || |keys.value| == 0 {
        return Ok([]);
      }
      var request := SizePrefixedSerializedPrimaryKeys(keys.value);
      if request.Err? {
        return Err(request.error);
      }
      batchRequests := batchRequests + [request.value];
      var result := batchReadField(handle, request.value, accessor.fieldName);
      r := DrainNullable(result);
    }

    /** `multiGetStringValue`: as the bytes, each non-null value decoded as UTF-8. */
    method MultiGetStringValue(keys: Option<seq<PrimaryKey>>, accessor: FieldAccessor) returns (r: Result<seq<Option<string>>, Thrown>)
      modifies this
      ensures handle == old(handle)
      ensures keys.None? || keys.value == [] ==> r == Ok([]) && batchRequests == old(batchRequests)
      ensures keys.Some? && keys.value != [] && Packed(SerializedKeys(keys.value)).Err? ==>
        r == Err(Packed(SerializedKeys(keys.value)).error) && batchRequests == old(batchRequests)
      ensures keys.Some? && keys.value != [] && Packed(SerializedKeys(keys.value)).Ok? ==>
        var request := Packed(SerializedKeys(keys.value)).value;
        batchRequests == old(batchRequests) + [request]
        && r == DecodeStrings(DecodeNullable(batchReadField(handle, request, accessor.fieldName)))
    {
      var bytes := MultiGetBytesValue(keys, accessor);
      r := DecodeStrings(bytes);
    }
  }

  /** `sizePrefixedSerializedPrimaryKeys`: the keys' bytes, size-prefixed, in a buffer of the summed capacity. */
  method SizePrefixedSerializedPrimaryKeys(keys: seq<PrimaryKey>) returns (r: Result<Bytes, Thrown>)
    ensures r == Packed(SerializedKeys(keys))
  {
    r := SizePrefixedConcat(SerializedKeys(keys));
  }
}
