/**
 * The Python client's documents: `IKVDocumentBuilder` setters validate the
 * name and value and store one field each, and `build` wraps the
 * builder's own dictionary in an `IKVDocument`.
 */
module PyDocument {
  import opened Wrappers
  import opened ByteCodec
  import opened CkvSegment
  import opened DocumentFields
  import opened Text
  import opened PyUtils

  const FIELDS_CANNOT_BE_NONE := "fields cannot be None"

  /** `IKVDocument`: a reference to a field dictionary. */
  datatype IKVDocument = IKVDocument(fields: FieldMap)

  /** `IKVDocument(fields)`: `None` is a ValueError. */
  function NewIKVDocument(fields: Option<FieldMap>): (r: Result<IKVDocument, PyError>)
    ensures r.Ok? <==> fields.Some?
    ensures r.Ok? ==> r.value.fields == fields.value
    ensures r.Err? ==> r.error == ValueError(FIELDS_CANNOT_BE_NONE)
  {
    match fields
    case None => Err(ValueError(FIELDS_CANNOT_BE_NONE))
    case Some(m) => Ok(IKVDocument(m))
  }

  /** `len()`: the number of distinct field names; 0 exactly for a document without fields. */
  function Len(d: IKVDocument): (n: nat)
    reads d.fields
    ensures n == |d.fields.entries.Keys|
    ensures n == 0 <==> d.fields.entries == map[]
  {
    |d.fields.entries|
  }

  /**
   * A document whose dictionary is `before` with one more name put into it
   * counts one field more exactly when that name is new.
   */
  lemma LenAfterPut(d: IKVDocument, before: map<string, FieldValue>, name: string, v: FieldValue)
    requires d.fields.entries == before[name := v]
    ensures Len(d) == |before| + (if name in before then 0 else 1)
    ensures Len(d) > 0
  {
    PutField(before, name, v);
  }

  /** `IKVDocumentBuilder`. */
  class IKVDocumentBuilder {
    const fields: FieldMap

    /** Every stored field has a non-empty name and a non-empty value. */
    predicate Valid()
      reads this, fields
    {
      AllStorable(fields.entries)
    }

    constructor()
      ensures fresh(fields) && fields.entries == map[] && Valid()
    {
      fields := new FieldMap();
    }

    /** The name is validated first, then the value; the value is stored UTF-8 encoded, typed STRING. */
    method PutStringField(name: PyValue, value: PyValue) returns (r: Result<IKVDocumentBuilder, PyError>)
      modifies fields
      ensures IsValidStrOrRaise(name).Err? ==> r == Err(IsValidStrOrRaise(name).error) && unchanged(fields)
      ensures IsValidStrOrRaise(name).Ok? && IsValidStrOrRaise(value).Err? ==> r == Err(IsValidStrOrRaise(value).error) && unchanged(fields)
      ensures IsValidStrOrRaise(name).Ok? && IsValidStrOrRaise(value).Ok? ==>
        r == Ok(this) && fields.entries == old(fields.entries)[name.text := Typed(STRING, Utf8(value.text))]
      ensures r.Err? ==> |fields.entries| == |old(fields.entries)|
      ensures r.Ok? ==> |fields.entries| == |old(fields.entries)| + (if name.text in old(fields.entries) then 0 else 1)
      ensures old(Valid()) ==> Valid()
    {
      var n := IsValidStrOrRaise(name);
      if n.Err? {
        return Err(n.error);
      }
      var v := IsValidStrOrRaise(value);
      if v.Err? {
        return Err(v.error);
      }
      PutField(fields.entries, n.value, Typed(STRING, Utf8(v.value)));
      fields.entries := fields.entries[n.value := Typed(STRING, Utf8(v.value))];
      return Ok(this);
    }

    /** The bytes as given, typed BYTES. */
    method PutBytesField(name: PyValue, value: PyValue) returns (r: Result<IKVDocumentBuilder, PyError>)
      modifies fields
      ensures IsValidStrOrRaise(name).Err? ==> r == Err(IsValidStrOrRaise(name).error) && unchanged(fields)
      ensures IsValidStrOrRaise(name).Ok? && IsValidBytesOrRaise(value).Err? ==> r == Err(IsValidBytesOrRaise(value).error) && unchanged(fields)
      ensures IsValidStrOrRaise(name).Ok? && IsValidBytesOrRaise(value).Ok? ==>
        r == Ok(this) && fields.entries == old(fields.entries)[name.text := Typed(BYTES, value.bytes)]
      ensures r.Err? ==> |fields.entries| == |old(fields.entries)|
      ensures r.Ok? ==> |fields.entries| == |old(fields.entries)| + (if name.text in old(fields.entries) then 0 else 1)
      ensures old(Valid()) ==> Valid()
    {
      var n := IsValidStrOrRaise(name);
      if n.Err? {
        return Err(n.error);
      }
      var v := IsValidBytesOrRaise(value);
      if v.Err? {
        return Err(v.error);
      }
      PutField(fields.entries, n.value, Typed(BYTES, v.value));
      fields.entries := fields.entries[n.value := Typed(BYTES, v.value)];
      return Ok(this);
    }

    /** The document holds this builder's dictionary itself. */
    method Build() returns (d: IKVDocument)
      ensures d.fields == fields
    {
      var built := NewIKVDocument(Some(fields));
      return built.value;
    }
  }
}
