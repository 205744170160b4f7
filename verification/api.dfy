/**
 * The prototype columnar index: sixteen primary-key segments chosen by
 * `hash(document_id) mod 16`, a field table sorted by id and a table by
 * name. Values are read and written one field at a time.
 *
 * The hash (fxhash) is a parameter. Each segment write uses the appending
 * upsert of `PkIndex`, the corrected form of the prototype's own upsert.
 */
module ColumnarIndex {
  import opened Wrappers
  import opened ByteCodec
  import opened SchemaField
  import opened SchemaLoader
  import opened PkIndex
  import CkvSegment

  const NUM_SEGMENTS: nat := 16

  /** The errors of the upserts, in the order they are checked. */
  datatype ApiError =
    | InvalidFieldName
    | InvalidFieldId
    | EmptyDocumentId
    | DocumentIdTooLarge
    | EmptyFieldValue
    | FieldValueTooLarge
    | SegmentRejected(error: UpsertError)

  /** `fieldid_field_table.get(field_id as usize)`: the field at position `fieldId`, whatever its id. */
  function FieldAt(table: seq<NamedField>, fieldId: U16): (r: Option<NamedField>)
    ensures r.Some? <==> fieldId < |table|
    ensures r.Some? ==> r.value in table
  {
    if fieldId < |table| then Some(table[fieldId]) else None
  }

  /** The first field of the table whose id is `fieldId`. */
  function FieldWithId(table: seq<NamedField>, fieldId: U16): (r: Option<NamedField>)
    ensures r.Some? <==> exists i :: 0 <= i < |table| && IdOf(table[i]) == fieldId
    ensures r.Some? ==> r.value in table && IdOf(r.value) == fieldId
    decreases |table|
  {
    if table == [] then None
    else if IdOf(table[0]) == fieldId then Some(table[0])
    else
      var r := FieldWithId(table[1..], fieldId);
      assert forall i :: 0 < i < |table| ==> table[i] == table[1..][i - 1];
      r
  }

  /** Ids 0, 1, 2, ... with no gap: the table position of each field is its id. */
  predicate DenseIds(table: seq<NamedField>)
  {
    forall i :: 0 <= i < |table| ==> IdOf(table[i]) == i
  }

  /** With dense ids the lookup by position finds the field with that id. */
  lemma {:induction false} FieldAtAgreesWhenDense(table: seq<NamedField>, fieldId: U16)
    requires DenseIds(table)
    ensures FieldAt(table, fieldId) == FieldWithId(table, fieldId)
  {
    if fieldId < |table| {
      FirstWithId(table, fieldId, fieldId);
    }
  }

  /** When no earlier field has id `fieldId`, the one at `i` is the first. */
  lemma {:induction false} FirstWithId(table: seq<NamedField>, fieldId: U16, i: nat)
    requires i < |table| && IdOf(table[i]) == fieldId
    requires forall j :: 0 <= j < i ==> IdOf(table[j]) != fieldId
    ensures FieldWithId(table, fieldId) == Some(table[i])
    decreases i
  {
    if i > 0 {
      assert table[1..][i - 1] == table[i];
      FirstWithId(table[1..], fieldId, i - 1);
    }
  }

  /**
   * With ids 0 and 2 the lookup by position misses field 2 and returns
   * field 2 for id 1.
   */
  lemma FieldAtMissesSparseIds()
    ensures var table := [NamedField("a", Field(0, I32)), NamedField("b", Field(2, Bytes))];
      && FieldAt(table, 2) == None && FieldWithId(table, 2) == Some(table[1])
      && FieldAt(table, 1) == Some(table[1]) && FieldWithId(table, 1) == None
  {
    var table := [NamedField("a", Field(0, I32)), NamedField("b", Field(2, Bytes))];
    FirstWithId(table, 2, 1);
  }

  /** The validation of `upsert_field_value`, in source order. */
  function CheckUpsert(documentId: Bytes, fieldValue: Bytes): (r: Option<ApiError>)
    ensures r.None? <==> 0 < |documentId| <= U16_MAX && 0 < |fieldValue| <= U32_MAX
    ensures r == Some(EmptyDocumentId) <==> documentId == []
    ensures r == Some(DocumentIdTooLarge) <==> |documentId| > U16_MAX
    ensures r == Some(EmptyFieldValue) <==> 0 < |documentId| <= U16_MAX && fieldValue == []
  {
    if |documentId| == 0 then Some(EmptyDocumentId)
    else if |documentId| > U16_MAX then Some(DocumentIdTooLarge)
    else if |fieldValue| == 0 then Some(EmptyFieldValue)
    else if |fieldValue| > U32_MAX then Some(FieldValueTooLarge)
    else None
  }

  /** The segment's own result, passed on. */
  function FromSegment(w: Result<(), UpsertError>): (r: Result<(), ApiError>)
    ensures r.Ok? <==> w.Ok?
  {
    match w
    case Ok(_) => Ok(())
    case Err(e) => Err(SegmentRejected(e))
  }

  /** `ColumnarKVIndex`. */
  class ColumnarKVIndex {
    const segments: seq<PrimaryKeyIndex>
    const fieldIdTable: seq<NamedField>
    const fieldNameTable: map<string, NamedField>
    const hash: Bytes -> nat

    /** Sixteen distinct segments. */
    predicate Valid()
    {
      && |segments| == NUM_SEGMENTS
      && forall i, j :: 0 <= i < j < |segments| ==> segments[i] != segments[j]
    }

    constructor Init(segments: seq<PrimaryKeyIndex>, fieldIdTable: seq<NamedField>,
                     fieldNameTable: map<string, NamedField>, hash: Bytes -> nat)
      ensures this.segments == segments && this.fieldIdTable == fieldIdTable
      ensures this.fieldNameTable == fieldNameTable && this.hash == hash
    {
      this.segments := segments;
      this.fieldIdTable := fieldIdTable;
      this.fieldNameTable := fieldNameTable;
      this.hash := hash;
    }

    /** The segment of a document: `hash(document_id) % NUM_SEGMENTS`. */
    function Route(documentId: Bytes): (r: nat)
      ensures r < NUM_SEGMENTS
    {
      hash(documentId) % NUM_SEGMENTS
    }

    /** `get_field_value`: the routed segment's `read`. */
    function GetFieldValue(documentId: Bytes, field: NamedField): (r: Outcome<Option<Bytes>>)
      requires |segments| == NUM_SEGMENTS
      reads segments[Route(documentId)]
      ensures r == Returned(None) <==>
        var s := segments[Route(documentId)];
        documentId !in s.index || IdOf(field) >= |s.index[documentId]|
          || s.index[documentId][IdOf(field)] == CkvSegment.SENTINEL
    {
      var segment := segments[Route(documentId)];
      Read(segment.index, segment.mmap, documentId, field.field)
    }

    /** `get_field_value_by_name`: None for a name not in the schema. */
    function GetFieldValueByName(documentId: Bytes, fieldName: string): (r: Outcome<Option<Bytes>>)
      requires |segments| == NUM_SEGMENTS
      reads segments[Route(documentId)]
      ensures fieldName !in fieldNameTable ==> r == Returned(None)
    {
      if fieldName !in fieldNameTable then Returned(None)
      else GetFieldValue(documentId, fieldNameTable[fieldName])
    }

    /** `get_field_value_by_id`, through the field that has the id: None when no field has it. */
    function GetFieldValueById(documentId: Bytes, fieldId: U16): (r: Outcome<Option<Bytes>>)
      requires |segments| == NUM_SEGMENTS
      reads segments[Route(documentId)]
      ensures (forall i :: 0 <= i < |fieldIdTable| ==> IdOf(fieldIdTable[i]) != fieldId) ==> r == Returned(None)
    {
      match FieldWithId(fieldIdTable, fieldId)
      case None => Returned(None)
      case Some(field) => GetFieldValue(documentId, field)
    }

    /**
     * `upsert_field_value`: an empty or over-long document id, then an empty
     * or over-long value, is refused with nothing changed; otherwise the
     * value goes to the routed segment, where it then reads back as written
     * and every other key and field id reads as before.
     */
    method UpsertFieldValue(documentId: Bytes, fieldValue: Bytes, field: NamedField)
      returns (r: Result<(), ApiError>)
      requires Valid() && |segments[Route(documentId)].mmap| < CkvSegment.SENTINEL
      modifies segments[Route(documentId)]
      ensures CheckUpsert(documentId, fieldValue).Some? ==>
        r == Err(CheckUpsert(documentId, fieldValue).value) && unchanged(segments[Route(documentId)])
      ensures CheckUpsert(documentId, fieldValue).None? ==> r == Ok(())
      ensures r.Ok? && WidthMatches(field.field, fieldValue) ==>
        GetFieldValue(documentId, field) == Returned(Some(fieldValue))
      ensures forall k: Bytes, f: NamedField | (k != documentId || IdOf(f) != IdOf(field)) && old(GetFieldValue(k, f)).Returned? ::
        GetFieldValue(k, f) == old(GetFieldValue(k, f))
    {
      var err := CheckUpsert(documentId, fieldValue);
      if err.Some? {
        return Err(err.value);
      }
      var segment := segments[Route(documentId)];
      var w := segment.UpsertAppending(documentId, field.field, fieldValue);
      r := FromSegment(w);
    }

    /** `upsert_field_value_by_name`: an unknown name is refused with nothing changed. */
    method UpsertFieldValueByName(documentId: Bytes, fieldValue: Bytes, fieldName: string)
      returns (r: Result<(), ApiError>)
      requires Valid() && |segments[Route(documentId)].mmap| < CkvSegment.SENTINEL
      modifies segments[Route(documentId)]
      ensures fieldName !in fieldNameTable ==> r == Err(InvalidFieldName) && unchanged(segments[Route(documentId)])
      ensures fieldName in fieldNameTable ==>
        if CheckUpsert(documentId, fieldValue).Some? then r == Err(CheckUpsert(documentId, fieldValue).value)
        else r == Ok(())
      ensures r.Ok? && WidthMatches(fieldNameTable[fieldName].field, fieldValue) ==>
        GetFieldValueByName(documentId, fieldName) == Returned(Some(fieldValue))
    {
      if fieldName !in fieldNameTable {
        return Err(InvalidFieldName);
      }
      r := UpsertFieldValue(documentId, fieldValue, fieldNameTable[fieldName]);
    }

    /** `upsert_field_value_by_id`, through the field that has the id: an id no field has is refused. */
    method UpsertFieldValueById(documentId: Bytes, fieldValue: Bytes, fieldId: U16)
      returns (r: Result<(), ApiError>)
      requires Valid() && |segments[Route(documentId)].mmap| < CkvSegment.SENTINEL
      modifies segments[Route(documentId)]
      ensures FieldWithId(fieldIdTable, fieldId).None? ==>
        r == Err(InvalidFieldId) && unchanged(segments[Route(documentId)])
      ensures FieldWithId(fieldIdTable, fieldId).Some? ==>
        if CheckUpsert(documentId, fieldValue).Some? then r == Err(CheckUpsert(documentId, fieldValue).value)
        else r == Ok(())
      ensures r.Ok? && WidthMatches(FieldWithId(fieldIdTable, fieldId).value.field, fieldValue) ==>
        GetFieldValueById(documentId, fieldId) == Returned(Some(fieldValue))
    {
      var field := FieldWithId(fieldIdTable, fieldId);
      if field.None? {
        return Err(InvalidFieldId);
      }
      r := UpsertFieldValue(documentId, fieldValue, field.value);
    }
  }

  /**
   * `new`: sixteen empty segments, the loaded fields sorted by id and the
   * name table built from the sorted list.
   */
  method New(fields: seq<NamedField>, hash: Bytes -> nat) returns (index: ColumnarKVIndex)
    ensures fresh(index) && index.Valid() && index.hash == hash
    ensures forall i :: 0 <= i < NUM_SEGMENTS ==>
      var s := index.segments[i];
      fresh(s) && s.index == map[] && s.mmap == [] && s.indexFile == []
    ensures index.fieldIdTable == StableSortById(fields) && SortedById(index.fieldIdTable)
    ensures index.fieldNameTable == MapOf(index.fieldIdTable)
  {
    var segments: seq<PrimaryKeyIndex> := [];
    for i := 0 to NUM_SEGMENTS
      invariant |segments| == i
      invariant forall j, k :: 0 <= j < k < i ==> segments[j] != segments[k]
      invariant forall j :: 0 <= j < i ==>
        fresh(segments[j]) && segments[j].index == map[] && segments[j].mmap == [] && segments[j].indexFile == []
    {
      var segment := new PrimaryKeyIndex.New();
      segments := segments + [segment];
    }
    var idTable, nameTable := SortedTables(fields);
    index := new ColumnarKVIndex.Init(segments, idTable, nameTable, hash);
  }

  /**
   * `open`: the segments reopen their files, which keep their bytes while
   * their tables start empty; the field tables are built as in `new`.
   */
  method Open(fields: seq<NamedField>, mapped: seq<Bytes>, persisted: seq<Bytes>, hash: Bytes -> nat)
    returns (index: ColumnarKVIndex)
    requires |mapped| == NUM_SEGMENTS && |persisted| == NUM_SEGMENTS
    ensures fresh(index) && index.Valid() && index.hash == hash
    ensures forall i :: 0 <= i < NUM_SEGMENTS ==>
      var s := index.segments[i];
      fresh(s) && s.index == map[] && s.mmap == mapped[i] && s.indexFile == persisted[i]
    ensures index.fieldIdTable == StableSortById(fields) && SortedById(index.fieldIdTable)
    ensures index.fieldNameTable == MapOf(index.fieldIdTable)
  {
    var segments: seq<PrimaryKeyIndex> := [];
    for i := 0 to NUM_SEGMENTS
      invariant |segments| == i
      invariant forall j, k :: 0 <= j < k < i ==> segments[j] != segments[k]
      invariant forall j :: 0 <= j < i ==>
        fresh(segments[j]) && segments[j].index == map[] && segments[j].mmap == mapped[j]
          && segments[j].indexFile == persisted[j]
    {
      var segment := new PrimaryKeyIndex.Open(mapped[i], persisted[i]);
      segments := segments + [segment];
    }
    var idTable, nameTable := SortedTables(fields);
    index := new ColumnarKVIndex.Init(segments, idTable, nameTable, hash);
  }

  /** `sort_by_field_id` then `to_map` on the loaded fields. */
  method SortedTables(fields: seq<NamedField>) returns (idTable: seq<NamedField>, nameTable: map<string, NamedField>)
    ensures idTable == StableSortById(fields) && SortedById(idTable)
    ensures nameTable == MapOf(idTable)
  {
    var a := new NamedField[|fields|](i requires 0 <= i < |fields| => fields[i]);
    assert a[..] == fields;
    SortByFieldId(a);
    idTable := a[..];
    nameTable := ToMap(idTable);
  }
}
