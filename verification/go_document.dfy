/**
 * The Go client's document builder: `Put...Field` setters that, on an
 * empty name or value, record an error and return nil, and a `Build` that
 * returns the builder's own field map with the last error recorded.
 */
module GoDocument {
  import opened Wrappers
  import opened ByteCodec
  import opened CkvSegment
  import opened DocumentFields
  import opened Text

  const MISSING_FIELD := "missing field name or field value"

  /** `IKVDocument`: its map is the builder's. */
  datatype IKVDocument = IKVDocument(fields: FieldMap)

  /** `IKVDocumentBuilder`. */
  class IKVDocumentBuilder {
    const fields: FieldMap
    var err: Option<string>

    /** Every stored field has a non-empty name and a non-empty value. */
    predicate Valid()
      reads this, fields
    {
      AllStorable(fields.entries)
    }

    /** `NewIKVDocumentBuilder`: no fields, no error. */
    constructor()
      ensures fresh(fields) && fields.entries == map[] && err == None && Valid()
    {
      fields := new FieldMap();
      err := None;
    }

    /** The string's bytes, typed STRING. */
    method PutStringField(fieldname: string, value: string) returns (r: IKVDocumentBuilder?)
      modifies this, fields
      ensures fieldname == "" || value == "" ==> r == null && err == Some(MISSING_FIELD) && fields.entries == old(fields.entries)
      ensures fieldname != "" && value != "" ==>
        r == this && err == old(err) && fields.entries == old(fields.entries)[fieldname := Typed(STRING, Utf8(value))]
      ensures old(Valid()) ==> Valid()
    {
      if fieldname == "" || value == "" {
        err := Some(MISSING_FIELD);
        return null;
      }
      PutField(fields.entries, fieldname, Typed(STRING, Utf8(value)));
      fields.entries := fields.entries[fieldname := Typed(STRING, Utf8(value))];
      return this;
    }

    /** The bytes as given, typed BYTES. */
    method PutBytesField(fieldname: string, value: Bytes) returns (r: IKVDocumentBuilder?)
      modifies this, fields
      ensures fieldname == "" || value == [] ==> r == null && err == Some(MISSING_FIELD) && fields.entries == old(fields.entries)
      ensures fieldname != "" && value != [] ==>
        r == this && err == old(err) && fields.entries == old(fields.entries)[fieldname := Typed(BYTES, value)]
      ensures old(Valid()) ==> Valid()
    {
      if fieldname == "" || value == [] {
        err := Some(MISSING_FIELD);
        return null;
      }
      PutField(fields.entries, fieldname, Typed(BYTES, value));
      fields.entries := fields.entries[fieldname := Typed(BYTES, value)];
      return this;
    }

    /** The document shares the builder's map; the error is the last one recorded. */
    method Build() returns (d: IKVDocument, e: Option<string>)
      ensures d.fields == fields && e == err
    {
      return IKVDocument(fields), err;
    }
  }
}
