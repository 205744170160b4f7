/**
 * The Java client's document builder (`IKVDocument.Builder`): typed
 * `put...Field` setters that check their arguments and store one field
 * value each, and a `build` that wraps the accumulated map.
 *
 * The integer setters encode through a little-endian `ByteBuffer` and copy
 * it with `ByteString.copyFrom(ByteBuffer)`, which takes the bytes from the
 * buffer's position to its limit. Written as in the source, without a
 * `flip()`, the position is already at the limit and the stored value is
 * empty (`PutIntFieldAsWritten`, `PutLongFieldAsWritten`); the setters the
 * rest of the model uses flip the buffer first and store the four or eight
 * bytes of the number.
 */
module JavaDocument {
  import opened Wrappers
  import opened ByteCodec
  import opened JavaExceptions
  import opened CkvSegment
  import opened DocumentFields
  import opened Text
  import SizePrefixed

  /** A `ByteBuffer` over a fixed array: bytes, position and limit. */
  class ByteBuffer {
    const data: array<Byte>
    var position: nat
    var limit: nat

    predicate Valid()
      reads this
    {
      position <= limit <= data.Length
    }

    /** `ByteBuffer.allocate(capacity)`: position 0, limit at the capacity. */
    constructor Allocate(capacity: nat)
      ensures fresh(data) && data.Length == capacity
      ensures position == 0 && limit == capacity && Valid()
    {
      data := new Byte[capacity](_ => 0);
      position := 0;
      limit := capacity;
    }

    /** `putInt` / `putLong`: the bytes go in at the position, which moves past them. */
    method Put(bytes: Bytes)
      requires Valid() && position + |bytes| <= limit
      modifies this, data
      ensures Valid() && limit == old(limit) && position == old(position) + |bytes|
      ensures data[..position] == old(data[..position]) + bytes
    {
      SizePrefixed.Put(data, position, bytes);
      position := position + |bytes|;
    }

    /** `flip()`: the limit comes to the position and the position to 0. */
    method Flip()
      requires Valid()
      modifies this
      ensures Valid() && position == 0 && limit == old(position)
    {
      limit := position;
      position := 0;
    }

    /** `ByteString.copyFrom(ByteBuffer)`: the remaining bytes, which it consumes. */
    method CopyRemaining() returns (r: Bytes)
      requires Valid()
      modifies this
      ensures Valid() && position == limit == old(limit) && r == data[old(position)..limit]
    {
      r := data[position..limit];
      position := limit;
    }
  }

  /** `Preconditions.checkArgument(!s.isEmpty())` on a reference that may be null. */
  function NonEmpty<T>(s: Option<seq<T>>): (r: Option<Thrown>)
    ensures r.None? <==> s.Some? && s.value != []
    ensures s.None? ==> r == Some(NullPointer)
    ensures s == Some([]) ==> r == Some(IllegalArgument(""))
  {
    match s
    case None => Some(NullPointer)
    case Some(t) => if t == [] then Some(IllegalArgument("")) else None
  }

  /** The document `build` returns: the builder's own map. */
  datatype IKVDocument = IKVDocument(fields: FieldMap)

  /**
   * The integer encoding as written stores no bytes, which the index cannot
   * take for a fixed-width type; the corrected encoding stores exactly the
   * type's width, and the number reads back from it.
   */
  lemma IntegerFieldsAsWrittenAreEmpty(n: int)
    ensures !Storable(Typed(INT32, [])) && !Storable(Typed(INT64, []))
    ensures I32_MIN <= n <= I32_MAX ==> Storable(Typed(INT32, I32Le(n))) && I32FromLe(Typed(INT32, I32Le(n)).value) == n
    ensures I64_MIN <= n <= I64_MAX ==> Storable(Typed(INT64, I64Le(n))) && I64FromLe(Typed(INT64, I64Le(n)).value) == n
  {
    if I32_MIN <= n <= I32_MAX {
      I32RoundTrip(n);
    }
    if I64_MIN <= n <= I64_MAX {
      I64RoundTrip(n);
    }
  }

  /** `IKVDocument.Builder`. */
  class Builder {
    const fields: FieldMap

    /** Every stored field has a non-empty name and a value the index can store. */
    predicate Valid()
      reads this, fields
    {
      AllStorable(fields.entries)
    }

    constructor()
      ensures fresh(fields) && fields.entries == map[] && Valid()
    {
      fields := new FieldMap();
    }

    method PutStringField(fieldName: Option<string>, value: Option<string>) returns (r: Result<Builder, Thrown>)
      modifies fields
      ensures NonEmpty(fieldName).Some? ==> r == Err(NonEmpty(fieldName).value) && unchanged(fields)
      ensures NonEmpty(fieldName).None? && NonEmpty(value).Some? ==> r == Err(NonEmpty(value).value) && unchanged(fields)
      ensures NonEmpty(fieldName).None? && NonEmpty(value).None? ==>
        r == Ok(this) && fields.entries == old(fields.entries)[fieldName.value := Typed(STRING, Utf8(value.value))]
      ensures old(Valid()) ==> Valid()
    {
      var bad := NonEmpty(fieldName);
      if bad.Some? {
        return Err(bad.value);
      }
      bad := NonEmpty(value);
      if bad.Some? {
        return Err(bad.value);
      }
      PutField(fields.entries, fieldName.value, Typed(STRING, Utf8(value.value)));
      fields.entries := fields.entries[fieldName.value := Typed(STRING, Utf8(value.value))];
      return Ok(this);
    }

    method PutBytesField(fieldName: Option<string>, value: Option<Bytes>) returns (r: Result<Builder, Thrown>)
      modifies fields
      ensures NonEmpty(fieldName).Some? ==> r == Err(NonEmpty(fieldName).value) && unchanged(fields)
      ensures NonEmpty(fieldName).None? && NonEmpty(value).Some? ==> r == Err(NonEmpty(value).value) && unchanged(fields)
      ensures NonEmpty(fieldName).None? && NonEmpty(value).None? ==>
        r == Ok(this) && fields.entries == old(fields.entries)[fieldName.value := Typed(BYTES, value.value)]
      ensures old(Valid()) ==> Valid()
    {
      var bad := NonEmpty(fieldName);
      if bad.Some? {
        return Err(bad.value);
      }
      bad := NonEmpty(value);
      if bad.Some? {
        return Err(bad.value);
      }
      PutField(fields.entries, fieldName.value, Typed(BYTES, value.value));
      fields.entries := fields.entries[fieldName.value := Typed(BYTES, value.value)];
      return Ok(this);
    }

    /** `putIntField` as the source has it: the copy starts at the end of what was written. */
    method PutIntFieldAsWritten(fieldName: Option<string>, value: I32) returns (r: Result<Builder, Thrown>)
      modifies fields
      ensures NonEmpty(fieldName).Some? ==> r == Err(NonEmpty(fieldName).value) && unchanged(fields)
      ensures NonEmpty(fieldName).None? ==>
        r == Ok(this) && fields.entries == old(fields.entries)[fieldName.value := Typed(INT32, [])]
      ensures NonEmpty(fieldName).None? ==> !Valid()
    {
      var bad := NonEmpty(fieldName);
      if bad.Some? {
        return Err(bad.value);
      }
      var bb := new ByteBuffer.Allocate(4);
      bb.Put(I32Le(value));
      var copied := bb.CopyRemaining();
      fields.entries := fields.entries[fieldName.value := Typed(INT32, copied)];
      IntegerFieldsAsWrittenAreEmpty(0);
      assert !Storable(fields.entries[fieldName.value]);
      return Ok(this);
    }

    /** `putIntField` with the buffer flipped before the copy: the four little-endian bytes. */
    method PutIntField(fieldName: Option<string>, value: I32) returns (r: Result<Builder, Thrown>)
      modifies fields
      ensures NonEmpty(fieldName).Some? ==> r == Err(NonEmpty(fieldName).value) && unchanged(fields)
      ensures NonEmpty(fieldName).None? ==>
        r == Ok(this) && fields.entries == old(fields.entries)[fieldName.value := Typed(INT32, I32Le(value))]
      ensures old(Valid()) ==> Valid()
    {
      var bad := NonEmpty(fieldName);
      if bad.Some? {
        return Err(bad.value);
      }
      var bb := new ByteBuffer.Allocate(4);
      bb.Put(I32Le(value));
      bb.Flip();
      var copied := bb.CopyRemaining();
      assert copied == I32Le(value) by {
        assert bb.data[..4] == I32Le(value);
      }
      IntegerFieldsAsWrittenAreEmpty(value);
      PutField(fields.entries, fieldName.value, Typed(INT32, copied));
      fields.entries := fields.entries[fieldName.value := Typed(INT32, copied)];
      return Ok(this);
    }

    /** `putLongField` as the source has it. */
    method PutLongFieldAsWritten(fieldName: Option<string>, value: int) returns (r: Result<Builder, Thrown>)
      requires I64_MIN <= value <= I64_MAX
      modifies fields
      ensures NonEmpty(fieldName).Some? ==> r == Err(NonEmpty(fieldName).value) && unchanged(fields)
      ensures NonEmpty(fieldName).None? ==>
        r == Ok(this) && fields.entries == old(fields.entries)[fieldName.value := Typed(INT64, [])]
      ensures NonEmpty(fieldName).None? ==> !Valid()
    {
      var bad := NonEmpty(fieldName);
      if bad.Some? {
        return Err(bad.value);
      }
      var bb := new ByteBuffer.Allocate(8);
      bb.Put(I64Le(value));
      var copied := bb.CopyRemaining();
      fields.entries := fields.entries[fieldName.value := Typed(INT64, copied)];
      IntegerFieldsAsWrittenAreEmpty(0);
      assert !Storable(fields.entries[fieldName.value]);
      return Ok(this);
    }

    /** `putLongField` with the buffer flipped before the copy: the eight little-endian bytes. */
    method PutLongField(fieldName: Option<string>, value: int) returns (r: Result<Builder, Thrown>)
      requires I64_MIN <= value <= I64_MAX
      modifies fields
      ensures NonEmpty(fieldName).Some? ==> r == Err(NonEmpty(fieldName).value) && unchanged(fields)
      ensures NonEmpty(fieldName).None? ==>
        r == Ok(this) && fields.entries == old(fields.entries)[fieldName.value := Typed(INT64, I64Le(value))]
      ensures old(Valid()) ==> Valid()
    {
      var bad := NonEmpty(fieldName);
      if bad.Some? {
        return Err(bad.value);
      }
      var bb := new ByteBuffer.Allocate(8);
      bb.Put(I64Le(value));
      bb.Flip();
      var copied := bb.CopyRemaining();
      assert copied == I64Le(value) by {
        assert bb.data[..8] == I64Le(value);
      }
      IntegerFieldsAsWrittenAreEmpty(value);
      PutField(fields.entries, fieldName.value, Typed(INT64, copied));
      fields.entries := fields.entries[fieldName.value := Typed(INT64, copied)];
      return Ok(this);
    }

    /** The document holds this builder's map itself, so later puts show in it. */
    method Build() returns (d: IKVDocument)
      ensures d.fields == fields
    {
      return IKVDocument(fields);
    }
  }
}
