/**
 * The legacy Java client over one index handle: single reads as bytes, a
 * UTF-8 string or a little-endian i32, and a batch read that returns only
 * the values that are present.
 */
module LegacyClient {
  import opened Wrappers
  import opened ByteCodec
  import opened Text
  import opened JavaExceptions
  import opened SizePrefixed
  import opened ClientFraming

  /**
   * The client. The native library is seen through `readField` and
   * `batchReadField`; `batchRequests` records every key buffer sent to the
   * batch read.
   */
  class Client {
    const indexHandle: int
    const readField: (int, Bytes, string) -> Option<Bytes>
    const batchReadField: (int, Bytes, string) -> Bytes
    ghost var batchRequests: seq<Bytes>

    constructor(indexHandle: int, readField: (int, Bytes, string) -> Option<Bytes>, batchReadField: (int, Bytes, string) -> Bytes)
      ensures this.indexHandle == indexHandle && this.readField == readField && this.batchReadField == batchReadField
      ensures batchRequests == []
    {
      this.indexHandle := indexHandle;
      this.readField := readField;
      this.batchReadField := batchReadField;
      batchRequests := [];
    }

    /** `readStringField`: null when the native read is null, otherwise the bytes decoded as UTF-8. */
    function ReadStringField(primaryKey: Bytes, fieldName: string): (r: Option<string>)
      reads this
      ensures r.None? <==> readField(indexHandle, primaryKey, fieldName).None?
      ensures r.Some? ==> r.value == Utf8DecodeLenient(readField(indexHandle, primaryKey, fieldName).value)
    {
      match readField(indexHandle, primaryKey, fieldName)
      case None => None
      case Some(utf8Bytes) => Some(Utf8DecodeLenient(utf8Bytes))
    }

    /**
     * `readI32Field`: null when the native read is null; otherwise the first
     * four bytes as a little-endian i32 (fewer than four bytes underflow the
     * buffer).
     */
    function ReadI32Field(primaryKey: Bytes, fieldName: string): (r: Result<Option<int>, Thrown>)
      reads this
      ensures r.Err? <==> readField(indexHandle, primaryKey, fieldName).Some? && |readField(indexHandle, primaryKey, fieldName).value| < 4
      ensures r.Err? ==> r.error == Runtime
      ensures r.Ok? ==> (r.value.None? <==> readField(indexHandle, primaryKey, fieldName).None?)
      ensures r.Ok? && r.value.Some? ==> I32_MIN <= r.value.value <= I32_MAX
    {
      match readField(indexHandle, primaryKey, fieldName)
      case None => Ok(None)
      case Some(i32Bytes) =>
        if |i32Bytes| < 4 then Err(Runtime) else Ok(Some(I32FromLe(i32Bytes[..4])))
    }

    /** A value stored as an i32's four little-endian bytes reads back as that i32. */
    lemma ReadI32FieldRoundTrip(primaryKey: Bytes, fieldName: string, n: int)
      requires I32_MIN <= n <= I32_MAX
      requires readField(indexHandle, primaryKey, fieldName) == Some(I32Le(n))
      ensures ReadI32Field(primaryKey, fieldName) == Ok(Some(n))
    {
      I32RoundTrip(n);
      assert I32Le(n)[..4] == I32Le(n);
    }

    /** A value stored as a string's UTF-8 bytes reads back as that string. */
    lemma ReadStringFieldRoundTrip(primaryKey: Bytes, fieldName: string, s: string)
      requires readField(indexHandle, primaryKey, fieldName) == Some(Utf8(s))
      ensures ReadStringField(primaryKey, fieldName) == Some(s)
    {
      Utf8LenientRoundTrip(s);
    }

    /**
     * `batchReadBytesField`: null or no keys give no values and send
     * nothing; otherwise the keys are sent size-prefixed and the answer's
     * entries read back, entries of size 0 skipped.
     */
    method BatchReadBytesField(primaryKeys: Option<seq<Bytes>>, fieldName: string) returns (r: Result<seq<Bytes>, Thrown>)
      modifies this
      ensures primaryKeys.None? || primaryKeys.value == [] ==> r == Ok([]) && batchRequests == old(batchRequests)
      ensures primaryKeys.Some? && primaryKeys.value != [] && Packed(primaryKeys.value).Err? ==>
        r == Err(Packed(primaryKeys.value).error) && batchRequests == old(batchRequests)
      ensures primaryKeys.Some? && primaryKeys.value != [] && Packed(primaryKeys.value).Ok? ==>
        var request := Packed(primaryKeys.value).value;
        batchRequests == old(batchRequests) + [request] && r == DecodePresent(batchReadField(indexHandle, request, fieldName))
    {
      if primaryKeys.None? || |primaryKeys.value| == 0 {
        return Ok([]);
      }
      var request := SizePrefixedConcat(primaryKeys.value);
      if request.Err? {
        return Err(request.error);
      }
      batchRequests := batchRequests + [request.value];
      var fieldValues := batchReadField(indexHandle, request.value, fieldName);
      r := DrainPresent(fieldValues);
    }
  }

  /**
   * The values come back without their places: an answer framing values of
   * which some are empty yields fewer values than entries, only the
   * non-empty ones, in order.
   */
  lemma BatchDropsEmpty(values: seq<Bytes>)
    requires Framable(values)
    ensures DecodePresent(Frame(values)) == Ok(NonEmpty(values))
    ensures (exists i :: 0 <= i < |values| && values[i] == []) ==> |DecodePresent(Frame(values)).value| < |values|
  {
    DecodePresentOfFrame(values);
    if exists i :: 0 <= i < |values| && values[i] == [] {
      var i :| 0 <= i < |values| && values[i] == [];
      NonEmptyShorter(values, i);
    }
  }

  lemma {:induction false} NonEmptyShorter(values: seq<Bytes>, i: nat)
    requires i < |values| && values[i] == []
    ensures |NonEmpty(values)| < |values|
    decreases |values|
  {
    var init := values[..|values| - 1];
    if i == |values| - 1 {
      assert |NonEmpty(init)| <= |init|;
    } else {
      NonEmptyShorter(init, i);
    }
  }
}
