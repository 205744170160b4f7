/**
 * What the document builders of the Java, Go and Python clients share: a
 * field value is a type tag and its bytes, and a document's fields are a
 * map from field name to value that the builder and the documents it
 * builds hold by reference.
 */
module DocumentFields {
  import opened ByteCodec
  import opened CkvSegment

  /** A field value of type `t`, as the index receives it. */
  function Typed(t: FieldType, value: Bytes): (v: FieldValue)
    ensures Kind(v) == t && v.value == value
  {
    FromTagOfTag(t);
    FieldValue(Tag(t), value)
  }

  /**
   * A value the index can store: not empty, and exactly as wide as its
   * type when that type has a fixed width.
   */
  predicate Storable(v: FieldValue)
  {
    v.value != [] && FitsFixedWidth(v)
  }

  /** Every entry has a non-empty name and a storable value. */
  predicate AllStorable(entries: map<string, FieldValue>)
  {
    forall name :: name in entries ==> name != "" && Storable(entries[name])
  }

  /**
   * Storing under a name replaces whatever was there and adds one entry
   * exactly when the name is new; it keeps every entry storable when the
   * new one is.
   */
  lemma PutField(entries: map<string, FieldValue>, name: string, v: FieldValue)
    ensures name in entries ==> |entries[name := v]| == |entries|
    ensures name !in entries ==> |entries[name := v]| == |entries| + 1
    ensures AllStorable(entries) && name != "" && Storable(v) ==> AllStorable(entries[name := v])
  {
    if name in entries {
      assert entries[name := v].Keys == entries.Keys;
    } else {
      assert entries[name := v].Keys == entries.Keys + {name};
    }
  }

  /** A document's fields, held by reference. */
  class FieldMap {
    var entries: map<string, FieldValue>

    constructor()
      ensures entries == map[]
    {
      entries := map[];
    }
  }
}
