/**
 * The schema prototype's field descriptor: a 16-bit id and one of three
 * value types, with the fixed width of a value when it has one.
 */
module SchemaField {
  import opened Wrappers

  type U16 = x: int | 0 <= x < 0x1_0000

  datatype FieldType = I32 | String | Bytes

  datatype Field = Field(id: U16, fieldType: FieldType)

  /** `Field::new`. */
  function NewField(id: U16, fieldType: FieldType): Field
  {
    Field(id, fieldType)
  }

  /** `Field::id`. */
  function Id(f: Field): U16
  {
    f.id
  }

  /** `id()` gives back the id the field was created with. */
  lemma IdOfNew(id: U16, t: FieldType)
    ensures Id(NewField(id, t)) == id
  {
  }

  /** `value_len`: 4 bytes for I32, no fixed width for strings and bytes. */
  function ValueLen(f: Field): (r: Option<nat>)
    ensures r.Some? <==> f.fieldType == I32
    ensures r.Some? ==> r.value == 4
  {
    match f.fieldType
    case I32 => Some(4)
    case String | Bytes => None
  }

  /** The configuration name of each type. */
  function TypeName(t: FieldType): string
  {
    match t
    case I32 => "i32"
    case String => "string"
    case Bytes => "bytes"
  }

  /** `FieldType::try_from`: the three known names, anything else an error naming it. */
  function TryFrom(value: string): (r: Result<FieldType, string>)
    ensures r.Err? ==> r.error == "Unknown field-type: " + value + " found"
  {
    if value == "i32" then Ok(I32)
    else if value == "string" then Ok(String)
    else if value == "bytes" then Ok(Bytes)
    else Err("Unknown field-type: " + value + " found")
  }

  /** Every type converts back from its own name. */
  lemma TryFromTypeName(t: FieldType)
    ensures TryFrom(TypeName(t)) == Ok(t)
  {
  }

  /** A successful conversion came from exactly that type's name. */
  lemma TryFromAccepts(value: string)
    ensures TryFrom(value).Ok? <==> value in {"i32", "string", "bytes"}
    ensures TryFrom(value).Ok? ==> TypeName(TryFrom(value).value) == value
  {
  }
}
