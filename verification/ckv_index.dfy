/**
 * The columnar key-value index: sixteen segments, each key routed to
 * segment `hash(key) mod 16`, and one field schema that every document is
 * checked against before a write reaches its segment.
 *
 * The hash function and the conversion of a primary-key field value to its
 * serialized bytes are not part of this model: they are fixed parameters
 * of an index.
 */
module CkvIndex {
  import opened Wrappers
  import opened ByteCodec
  import opened SchemaField
  import opened CkvIndexSchema
  import CkvSegment

  const NUM_SEGMENTS: nat := 16

  type FieldValue = CkvSegment.FieldValue

  /** A document: field name to field value. */
  type Document = map<string, FieldValue>

  datatype IndexError =
    | MissingPrimaryKeyConfig
    | UnknownField(name: string)
    | MissingPrimaryKey
    | PrimaryKeyTooLarge
    | SegmentFailure(error: CkvSegment.SegmentError)

  /** What a stored value reads back as: UNKNOWN-typed values read as absent. */
  function Stored(v: FieldValue): Option<Bytes>
  {
    if CkvSegment.Kind(v) == CkvSegment.UNKNOWN then None else Some(v.value)
  }

  /** The bytes the values under `keys` take in a segment, whatever the order they are written in. */
  ghost function SizeOver(d: Document, keys: set<string>): nat
    requires keys <= d.Keys
    decreases keys
  {
    if keys == {} then 0
    else
      var k :| k in keys;
      CkvSegment.EntrySize(d[k]) + SizeOver(d, keys - {k})
  }

  /** The bytes all values of a document take. */
  ghost function DocSize(d: Document): nat
  {
    SizeOver(d, d.Keys)
  }

  lemma {:induction false} SizeOverRemove(d: Document, keys: set<string>, x: string)
    requires keys <= d.Keys && x in keys
    ensures SizeOver(d, keys) == CkvSegment.EntrySize(d[x]) + SizeOver(d, keys - {x})
    decreases keys
  {
    var y :| y in keys && SizeOver(d, keys) == CkvSegment.EntrySize(d[y]) + SizeOver(d, keys - {y});
    if y != x {
      SizeOverRemove(d, keys - {y}, x);
      SizeOverRemove(d, keys - {x}, y);
      assert keys - {y} - {x} == keys - {x} - {y};
    }
  }

  /**
   * The flattening loop of `upsert_field_values`: every document entry
   * once, in some order, with its field id from `table`.
   */
  method Flatten(table: map<string, Field>, document: Document)
    returns (names: seq<string>, ids: seq<nat>, values: seq<FieldValue>)
    requires forall k :: k in document ==> k in table
    ensures |names| == |ids| == |values| == |document|
    ensures forall i :: 0 <= i < |names| ==>
      names[i] in document && ids[i] == table[names[i]].id && values[i] == document[names[i]]
    ensures forall i, j :: 0 <= i < j < |names| ==> names[i] != names[j]
    ensures forall k :: k in document ==> k in names
    ensures CkvSegment.SumSizes(values) == DocSize(document)
  {
    names, ids, values := [], [], [];
    var rest := document.Keys;
    while rest != {}
      invariant FlatState(table, document, rest, names, ids, values)
      decreases |rest|
    {
      var k :| k in rest;
      FlatStep(table, document, rest, names, ids, values, k);
      names := names + [k];
      ids := ids + [table[k].id];
      values := values + [document[k]];
      rest := rest - {k};
    }
  }

  /** The loop state of `Flatten`: the keys not in `rest` are listed, once each, in `names`. */
  ghost predicate FlatState(table: map<string, Field>, document: Document, rest: set<string>,
                            names: seq<string>, ids: seq<nat>, values: seq<FieldValue>)
  {
    && (forall k :: k in document ==> k in table)
    && rest <= document.Keys
    && (forall k :: k in document ==> (k in rest <==> k !in names))
    && |names| == |ids| == |values| == |document| - |rest|
    && (forall i :: 0 <= i < |names| ==>
          names[i] in document && ids[i] == table[names[i]].id && values[i] == document[names[i]])
    && (forall i, j :: 0 <= i < j < |names| ==> names[i] != names[j])
    && CkvSegment.SumSizes(values) + SizeOver(document, rest) == DocSize(document)
  }

  lemma FlatStep(table: map<string, Field>, document: Document, rest: set<string>,
                 names: seq<string>, ids: seq<nat>, values: seq<FieldValue>, k: string)
    requires FlatState(table, document, rest, names, ids, values) && k in rest
    ensures FlatState(table, document, rest - {k}, names + [k], ids + [table[k].id], values + [document[k]])
  {
    var names', ids', values' := names + [k], ids + [table[k].id], values + [document[k]];
    SizeOverRemove(document, rest, k);
    assert values'[..|values|] == values;
    assert CkvSegment.SumSizes(values') == CkvSegment.SumSizes(values) + CkvSegment.EntrySize(document[k]);
    forall i | 0 <= i < |names'|
      ensures names'[i] in document && ids'[i] == table[names'[i]].id && values'[i] == document[names'[i]]
    {
      if i < |names| {
        assert names'[i] == names[i] && ids'[i] == ids[i] && values'[i] == values[i];
      }
    }
    forall i, j | 0 <= i < j < |names'|
      ensures names'[i] != names'[j]
    {
      if j == |names| {
        assert names'[i] == names[i] && names[i] in document && names[i] !in rest;
      } else {
        assert names'[i] == names[i] && names'[j] == names[j];
      }
    }
  }

  /** The reserved capacity of a batch read is zero exactly when there are no keys or no names. */
  lemma CapacityZero(keys: nat, names: nat)
    ensures keys * names * 16 == 0 <==> keys == 0 || names == 0
  {
    if keys > 0 && names > 0 {
      assert keys * names >= 1 by {
        assert keys * names >= 1 * names;
      }
    }
  }

  /** `upsert_document` on one segment, with only what the index relies on. */
  method UpsertInto(segment: CkvSegment.Segment, pk: Bytes, ids: seq<nat>, values: seq<FieldValue>)
    returns (r: Result<(), CkvSegment.SegmentError>)
    requires segment.Valid() && |ids| == |values| > 0 && CkvSegment.AllFit(values)
    requires segment.writeOffset + CkvSegment.SumSizes(values) < CkvSegment.SENTINEL
    modifies segment
    ensures segment.Valid()
    ensures r.Err? ==> unchanged(segment)
    ensures pk == [] ==> r.Ok?
    ensures pk != [] ==> (r.Ok? <==> CkvSegment.AllSizesOk(values))
    ensures r.Ok? && pk != [] ==> forall k :: CkvSegment.IsLastOccurrence(ids, k) ==>
      segment.ReadField(pk, ids[k]) == if CkvSegment.Kind(values[k]) == CkvSegment.UNKNOWN then None else Some(values[k].value)
    ensures forall k, fid :: k != pk ==> segment.ReadField(k, fid) == old(segment.ReadField(k, fid))
    ensures forall fid :: fid !in ids ==> segment.ReadField(pk, fid) == old(segment.ReadField(pk, fid))
  {
    ghost var table, m, wo := segment.offsetTable, segment.mmap, segment.writeOffset;
    r := segment.UpsertDocument(pk, ids, values);
    if r.Ok? && pk != [] {
      var offs := CkvSegment.EntryOffsets(wo, values[..|ids|]);
      forall k, fid | k != pk || fid !in ids
        ensures segment.ReadField(k, fid) == CkvSegment.ReadSlot(m, CkvSegment.Lookup(table, k), fid)
      {
        CkvSegment.UpdateKeepsOtherReads(table, m, wo, segment.mmap, pk, ids, offs, k, fid);
      }
    }
  }

  /** The index: sixteen segments and the schema they share. */
  class Index {
    const segments: seq<CkvSegment.Segment>
    const schema: IndexSchema
    /** The name of the primary-key field, from the store configuration. */
    const primaryKeyName: string
    const hash: Bytes -> nat
    /** A primary-key field value converted and serialized, or None when it does not convert. */
    const serializeKey: FieldValue -> Option<Bytes>

    ghost function SegmentSet(): set<object>
    {
      set s | s in segments
    }

    ghost predicate Valid()
      reads SegmentSet()
    {
      && |segments| == NUM_SEGMENTS
      && (forall i, j :: 0 <= i < j < |segments| ==> segments[i] != segments[j])
      && forall i :: 0 <= i < |segments| ==> segments[i].Valid()
    }

    constructor Init(segs: seq<CkvSegment.Segment>, s: IndexSchema, pkName: string,
                     h: Bytes -> nat, ser: FieldValue -> Option<Bytes>)
      ensures segments == segs && schema == s && primaryKeyName == pkName
      ensures hash == h && serializeKey == ser
    {
      segments := segs;
      schema := s;
      primaryKeyName := pkName;
      hash := h;
      serializeKey := ser;
    }

    /** The segment of a key: `hash(key) mod 16`, the same for every operation. */
    function Route(pk: Bytes): (r: nat)
      ensures r < NUM_SEGMENTS
    {
      hash(pk) % NUM_SEGMENTS
    }

    /** Every field of the document has a known schema. */
    predicate KnownFields(document: Document)
      reads schema
    {
      forall k :: k in document ==> k in schema.fieldTable
    }

    /**
     * `extract_primary_key`: None for an empty document, a document without
     * the primary-key field, or a key value that does not convert.
     */
    function ExtractPrimaryKey(document: Document): (r: Option<Bytes>)
      ensures r.Some? <==> |document| > 0 && primaryKeyName in document && serializeKey(document[primaryKeyName]).Some?
      ensures r.Some? ==> r == serializeKey(document[primaryKeyName])
    {
      if |document| == 0 || primaryKeyName !in document then None
      else serializeKey(document[primaryKeyName])
    }

    /**
     * `get_field_value`: the value of a named field for a key, read from the
     * key's segment; None for a name the schema does not know.
     */
    function GetFieldValue(pk: Bytes, fieldName: string): (r: Option<Bytes>)
      requires |segments| == NUM_SEGMENTS
      reads schema, segments[Route(pk)]
      ensures fieldName !in schema.fieldTable ==> r.None?
      ensures r.Some? ==> pk in segments[Route(pk)].offsetTable
    {
      match schema.FetchFieldByName(fieldName)
      case None => None
      case Some(field) => segments[Route(pk)].ReadField(pk, field.id)
    }

    /** One key's slots for `names`, each as `get_field_value` reads it. */
    function FieldsEncoding(pk: Bytes, names: seq<string>): Bytes
      requires |segments| == NUM_SEGMENTS
      reads schema, segments[Route(pk)]
      decreases |names|
    {
      if names == [] then []
      else FieldsEncoding(pk, names[..|names| - 1]) + CkvSegment.EncodeRead(GetFieldValue(pk, names[|names| - 1]))
    }

    /** The answer of `batch_get_field_values`: per key in order, its slots for `names`. */
    function BatchEncoding(pks: seq<Bytes>, names: seq<string>): Bytes
      requires |segments| == NUM_SEGMENTS
      reads schema, SegmentSet()
      decreases |pks|
    {
      if pks == [] || names == [] then []
      else BatchEncoding(pks[..|pks| - 1], names) + FieldsEncoding(pks[|pks| - 1], names)
    }

    /** A batch of keys answers as the batches of its parts, one after the other. */
    lemma {:induction false} BatchEncodingAppend(pks1: seq<Bytes>, pks2: seq<Bytes>, names: seq<string>)
      requires |segments| == NUM_SEGMENTS
      ensures BatchEncoding(pks1 + pks2, names) == BatchEncoding(pks1, names) + BatchEncoding(pks2, names)
      decreases |pks2|
    {
      if names != [] && pks2 != [] {
        var last := |pks2| - 1;
        assert (pks1 + pks2)[..|pks1 + pks2| - 1] == pks1 + pks2[..last];
        BatchEncodingAppend(pks1, pks2[..last], names);
      } else if names != [] {
        assert pks1 + pks2 == pks1;
      }
    }

    lemma BatchEncodingStep(pks: seq<Bytes>, names: seq<string>, i: nat)
      requires |segments| == NUM_SEGMENTS && i < |pks| && names != []
      ensures BatchEncoding(pks[..i + 1], names) == BatchEncoding(pks[..i], names) + FieldsEncoding(pks[i], names)
    {
      assert pks[..i + 1][..i] == pks[..i];
    }

    /** A single key answers with its own slots, as `get_field_value` reads them. */
    lemma BatchEncodingSingle(pk: Bytes, names: seq<string>)
      requires |segments| == NUM_SEGMENTS
      ensures BatchEncoding([pk], names) == FieldsEncoding(pk, names)
    {
      if names != [] {
        assert [pk][..0] == [];
      }
    }

    /** The segment's `read_fields` on resolved ids agrees with `get_field_value` on each name. */
    lemma {:induction false} ReadFieldsAgree(pk: Bytes, names: seq<string>, ids: seq<Option<nat>>)
      requires |segments| == NUM_SEGMENTS
      requires |ids| == |names|
      requires forall i :: 0 <= i < |names| ==>
        names[i] in schema.fieldTable && ids[i] == Some(schema.fieldTable[names[i]].id as nat)
      ensures segments[Route(pk)].ReadFieldsEncoding(pk, ids) == FieldsEncoding(pk, names)
      decreases |names|
    {
      if names != [] {
        var n := |names| - 1;
        ReadFieldsAgree(pk, names[..n], ids[..n]);
      }
    }

    /** The id lookup loop of `batch_get_field_values`. */
    method ResolveIds(names: seq<string>) returns (ids: seq<Option<nat>>)
      requires forall i :: 0 <= i < |names| ==> names[i] in schema.fieldTable
      ensures |ids| == |names|
      ensures forall i :: 0 <= i < |names| ==> ids[i] == Some(schema.fieldTable[names[i]].id as nat)
    {
      ids := [];
      for i := 0 to |names|
        invariant |ids| == i
        invariant forall j :: 0 <= j < i ==> ids[j] == Some(schema.fieldTable[names[j]].id as nat)
      {
        var field := schema.FetchFieldByName(names[i]);
        ids := ids + [Some(field.value.id as nat)];
      }
    }

    /**
     * `batch_get_field_values`: empty when there are no keys or no names;
     * otherwise each key's `read_fields` output, in key order. Every name
     * must be known (the source panics otherwise).
     */
    method BatchGetFieldValues(pks: seq<Bytes>, names: seq<string>) returns (out: Bytes)
      requires |segments| == NUM_SEGMENTS
      requires |pks| > 0 ==> forall i :: 0 <= i < |names| ==> names[i] in schema.fieldTable
      ensures out == BatchEncoding(pks, names)
    {
      var capacity := |pks| * |names| * 16;
      CapacityZero(|pks|, |names|);
      if capacity == 0 {
        return [];
      }
      var ids := ResolveIds(names);
      out := [];
      var i := 0;
      while i < |pks|
        invariant i <= |pks|
        invariant out == BatchEncoding(pks[..i], names)
      {
        var segment := segments[Route(pks[i])];
        ReadFieldsAgree(pks[i], names, ids);
        BatchEncodingStep(pks, names, i);
        ghost var next := BatchEncoding(pks[..i + 1], names);
        assert next == out + segment.ReadFieldsEncoding(pks[i], ids);
        label Before:
        out := segment.ReadFields(pks[i], ids, out);
        assert unchanged@Before(SegmentSet(), schema);
        assert out == next;
        i := i + 1;
      }
      assert pks[..i] == pks;
    }

    /** `has_known_fields`: fails naming a field the schema does not know. */
    method HasKnownFields(document: Document) returns (r: Result<(), IndexError>)
      ensures r.Ok? <==> KnownFields(document)
      ensures r.Err? ==> r.error.UnknownField? && r.error.name in document && r.error.name !in schema.fieldTable
    {
      var rest := document.Keys;
      while rest != {}
        invariant rest <= document.Keys
        invariant forall k :: k in document && k !in rest ==> k in schema.fieldTable
        decreases |rest|
      {
        var k :| k in rest;
        if schema.FetchFieldByName(k).None? {
          return Err(UnknownField(k));
        }
        rest := rest - {k};
      }
      return Ok(());
    }

    /**
     * `update_schema`: nothing to do for an empty list or when every name is
     * known; otherwise the schema's own update.
     */
    method UpdateSchema<S, E>(fields: seq<S>, name: S -> string, convert: S -> Result<Field, E>)
      returns (r: Result<(), E>)
      modifies schema
      ensures (schema.fieldTable, if r.Err? then Some(r.error) else None)
        == UpdateFrom(old(schema.fieldTable), fields, name, convert)
      ensures (forall i :: 0 <= i < |fields| ==> name(fields[i]) in old(schema.fieldTable)) ==>
        r.Ok? && unchanged(schema)
    {
      if |fields| == 0 {
        return Ok(());
      }
      var i := 0;
      while i < |fields| && schema.FetchFieldByName(name(fields[i])).Some?
        invariant i <= |fields|
        invariant forall j :: 0 <= j < i ==> name(fields[j]) in schema.fieldTable
      {
        i := i + 1;
      }
      var needsUpdate := i < |fields|;
      if !needsUpdate {
        UpdateAllKnown(schema.fieldTable, fields, name, convert);
        return Ok(());
      }
      r := schema.Update(fields, name, convert);
    }

    /** This write touches segment `i`: the document has a primary key routed there. */
    predicate WritesTo(document: Document, i: nat)
    {
      ExtractPrimaryKey(document).Some? && Route(ExtractPrimaryKey(document).value) == i
    }

    /** Every segment other than the written one is left as it was. */
    twostate predicate OthersUnchanged(document: Document)
      reads SegmentSet()
    {
      forall i :: 0 <= i < |segments| && !WritesTo(document, i) ==> unchanged(segments[i])
    }

    /**
     * `upsert_field_values`: an empty document is accepted as is; otherwise
     * every field must be known, the primary key present and at most
     * u16::MAX bytes, and then the key's segment writes all fields.
     */
    method UpsertFieldValues(document: Document) returns (r: Result<(), IndexError>)
      requires Valid()
      requires forall k :: k in document ==> CkvSegment.FitsFixedWidth(document[k])
      requires forall i :: 0 <= i < |segments| ==> segments[i].writeOffset + DocSize(document) < CkvSegment.SENTINEL
      modifies SegmentSet()
      ensures Valid() && OthersUnchanged(document)
      ensures r.Err? ==> forall i :: 0 <= i < |segments| ==> unchanged(segments[i])
      ensures |document| == 0 ==> r.Ok?
      ensures |document| > 0 && !KnownFields(document) ==> r.Err? && r.error.UnknownField?
      ensures |document| > 0 && KnownFields(document) && ExtractPrimaryKey(document).None? ==>
        r == Err(MissingPrimaryKey)
      ensures |document| > 0 && KnownFields(document) && ExtractPrimaryKey(document).Some? ==>
        var pk := ExtractPrimaryKey(document).value;
        && (|pk| > U16_MAX ==> r == Err(PrimaryKeyTooLarge))
        && (|pk| <= U16_MAX && pk != [] ==>
              (r.Ok? <==> forall k :: k in document ==> CkvSegment.SizeOfMmapEntry(document[k]).Ok?))
        && (|pk| <= U16_MAX && pk == [] ==> r.Ok?)
      ensures r.Ok? && |document| > 0 ==>
        var pk := ExtractPrimaryKey(document).value;
        pk != [] && DistinctIds(document) ==>
          forall n :: n in document ==> GetFieldValue(pk, n) == Stored(document[n])
      ensures forall k, n :: Some(k) != ExtractPrimaryKey(document) ==> GetFieldValue(k, n) == old(GetFieldValue(k, n))
      ensures r.Ok? && |document| > 0 ==>
        var pk := ExtractPrimaryKey(document).value;
        forall n :: OutsideDocument(document, n) ==> GetFieldValue(pk, n) == old(GetFieldValue(pk, n))
    {
      if |document| == 0 {
        return Ok(());
      }
      var known := HasKnownFields(document);
      if known.Err? {
        return Err(known.error);
      }
      var key := ExtractPrimaryKey(document);
      if key.None? {
        return Err(MissingPrimaryKey);
      }
      var pk := key.value;
      if |pk| > U16_MAX {
        return Err(PrimaryKeyTooLarge);
      }
      r := WriteDocument(pk, document);
    }

    /** The write half of `upsert_field_values`: the key's segment stores every field of the document. */
    method WriteDocument(pk: Bytes, document: Document) returns (r: Result<(), IndexError>)
      requires Valid() && KnownFields(document) && |document| > 0
      requires forall k :: k in document ==> CkvSegment.FitsFixedWidth(document[k])
      requires segments[Route(pk)].writeOffset + DocSize(document) < CkvSegment.SENTINEL
      modifies segments[Route(pk)]
      ensures Valid()
      ensures r.Err? ==> unchanged(segments[Route(pk)])
      ensures pk != [] ==> (r.Ok? <==> forall k :: k in document ==> CkvSegment.SizeOfMmapEntry(document[k]).Ok?)
      ensures pk == [] ==> r.Ok?
      ensures r.Ok? && pk != [] && DistinctIds(document) ==>
        forall n :: n in document ==> GetFieldValue(pk, n) == Stored(document[n])
      ensures forall k, n :: k != pk ==> GetFieldValue(k, n) == old(GetFieldValue(k, n))
      ensures forall n :: OutsideDocument(document, n) ==> GetFieldValue(pk, n) == old(GetFieldValue(pk, n))
    {
      var names, ids, values := Flatten(schema.fieldTable, document);
      var segment := segments[Route(pk)];
      var res := UpsertInto(segment, pk, ids, values);
      forall k, n | k != pk
        ensures GetFieldValue(k, n) == old(GetFieldValue(k, n))
      {
        if Route(k) != Route(pk) {
          assert segments[Route(k)] != segment;
        }
      }
      forall n | OutsideDocument(document, n)
        ensures GetFieldValue(pk, n) == old(GetFieldValue(pk, n))
      {
        if n in schema.fieldTable {
          OutsideWrittenIds(document, names, ids, n);
        }
      }
      if res.Err? {
        return Err(SegmentFailure(res.error));
      }
      if pk != [] && DistinctIds(document) {
        ReadBackAll(pk, document, names, ids, values);
      }
      return Ok(());
    }

    /** A name outside the document has an id the document's write does not name. */
    lemma OutsideWrittenIds(document: Document, names: seq<string>, ids: seq<nat>, n: string)
      requires KnownFields(document) && |names| == |ids|
      requires forall i :: 0 <= i < |names| ==> names[i] in document && ids[i] == schema.fieldTable[names[i]].id
      requires n in schema.fieldTable && OutsideDocument(document, n)
      ensures schema.fieldTable[n].id !in ids
    {
      forall i | 0 <= i < |ids|
        ensures ids[i] != schema.fieldTable[n].id
      {
        assert names[i] in document;
      }
    }

    /** With distinct ids every field of the document is the last write to its slot, so each reads back. */
    lemma ReadBackAll(pk: Bytes, document: Document, names: seq<string>, ids: seq<nat>, values: seq<FieldValue>)
      requires |segments| == NUM_SEGMENTS && KnownFields(document) && DistinctIds(document)
      requires |names| == |ids| == |values|
      requires forall i :: 0 <= i < |names| ==>
        names[i] in document && ids[i] == schema.fieldTable[names[i]].id && values[i] == document[names[i]]
      requires forall i, j :: 0 <= i < j < |names| ==> names[i] != names[j]
      requires forall k :: k in document ==> k in names
      requires forall k :: CkvSegment.IsLastOccurrence(ids, k) ==>
        segments[Route(pk)].ReadField(pk, ids[k]) == if CkvSegment.Kind(values[k]) == CkvSegment.UNKNOWN then None else Some(values[k].value)
      ensures forall n :: n in document ==> GetFieldValue(pk, n) == Stored(document[n])
    {
      forall n | n in document
        ensures GetFieldValue(pk, n) == Stored(document[n])
      {
        var k :| 0 <= k < |names| && names[k] == n;
        assert CkvSegment.IsLastOccurrence(ids, k) by {
          forall j | k < j < |ids|
            ensures ids[j] != ids[k]
          {
            assert names[j] != names[k];
          }
        }
      }
    }

    /** The fields of the document have pairwise different ids in the schema. */
    predicate DistinctIds(document: Document)
      reads schema
    {
      forall a, b :: a in document && b in document && a != b && a in schema.fieldTable && b in schema.fieldTable ==>
        schema.fieldTable[a].id != schema.fieldTable[b].id
    }

    /** No field of the document shares the schema id of `n`, so a write of the document leaves `n`'s slot alone. */
    predicate OutsideDocument(document: Document, n: string)
      reads schema
    {
      n in schema.fieldTable ==>
        forall m :: m in document && m in schema.fieldTable ==> schema.fieldTable[m].id != schema.fieldTable[n].id
    }

    /** No listed name shares the schema id of `n`, so clearing the names leaves `n`'s slot alone. */
    predicate OutsideNames(names: seq<string>, n: string)
      reads schema
    {
      n in schema.fieldTable ==>
        forall i :: 0 <= i < |names| && names[i] in schema.fieldTable ==> schema.fieldTable[names[i]].id != schema.fieldTable[n].id
    }

    /** Every name has a known schema. */
    predicate KnownNames(names: seq<string>)
      reads schema
    {
      forall i :: 0 <= i < |names| ==> names[i] in schema.fieldTable
    }

    /**
     * `delete_field_values`: nothing for an empty document or name list;
     * otherwise every document field must be known and the primary key
     * present; a field name the schema does not know then panics (the
     * `expect` on the schema lookup), and otherwise the key's segment
     * clears the named fields.
     */
    method DeleteFieldValues(document: Document, fieldNames: seq<string>) returns (r: Outcome<Result<(), IndexError>>)
      requires Valid()
      modifies SegmentSet()
      ensures Valid() && OthersUnchanged(document)
      ensures r.Panicked? <==>
        |document| > 0 && fieldNames != [] && KnownFields(document) && ExtractPrimaryKey(document).Some? && !KnownNames(fieldNames)
      ensures r.Panicked? || r.value.Err? || |document| == 0 || fieldNames == [] ==>
        forall i :: 0 <= i < |segments| ==> unchanged(segments[i])
      ensures |document| == 0 || fieldNames == [] ==> r == Returned(Ok(()))
      ensures |document| > 0 && fieldNames != [] && !KnownFields(document) ==>
        r.Returned? && r.value.Err? && r.value.error.UnknownField?
      ensures |document| > 0 && fieldNames != [] && KnownFields(document) && ExtractPrimaryKey(document).None? ==>
        r == Returned(Err(MissingPrimaryKey))
      ensures |document| > 0 && fieldNames != [] && KnownFields(document) && ExtractPrimaryKey(document).Some? && KnownNames(fieldNames) ==>
        r == Returned(Ok(()))
      ensures r == Returned(Ok(())) && |document| > 0 && fieldNames != [] && ExtractPrimaryKey(document).value != [] ==>
        forall n :: n in fieldNames ==> GetFieldValue(ExtractPrimaryKey(document).value, n).None?
      ensures forall k, n :: Some(k) != ExtractPrimaryKey(document) ==> GetFieldValue(k, n) == old(GetFieldValue(k, n))
      ensures r == Returned(Ok(())) && |document| > 0 && fieldNames != [] ==>
        var pk := ExtractPrimaryKey(document).value;
        forall n :: OutsideNames(fieldNames, n) ==> GetFieldValue(pk, n) == old(GetFieldValue(pk, n))
    {
      if |document| == 0 || |fieldNames| == 0 {
        return Returned(Ok(()));
      }
      var known := HasKnownFields(document);
      if known.Err? {
        return Returned(Err(known.error));
      }
      var key := ExtractPrimaryKey(document);
      if key.None? {
        return Returned(Err(MissingPrimaryKey));
      }
      var pk := key.value;
      var ids: seq<nat> := [];
      for i := 0 to |fieldNames|
        invariant |ids| == i
        invariant forall j :: 0 <= j < i ==> fieldNames[j] in schema.fieldTable && ids[j] == schema.fieldTable[fieldNames[j]].id
      {
        var field := schema.FetchFieldByName(fieldNames[i]);
        if field.None? {
          return Panicked;
        }
        ids := ids + [field.value.id];
      }
      var segment := segments[Route(pk)];
      segment.DeleteFieldValues(pk, ids);
      forall n | OutsideNames(fieldNames, n)
        ensures GetFieldValue(pk, n) == old(GetFieldValue(pk, n))
      {
        if n in schema.fieldTable {
          assert schema.fieldTable[n].id !in ids;
        }
      }
      forall n | n in fieldNames && pk != []
        ensures GetFieldValue(pk, n).None?
      {
        var i :| 0 <= i < |fieldNames| && fieldNames[i] == n;
        assert ids[i] in ids;
      }
      return Returned(Ok(()));
    }

    /**
     * `delete_document`: nothing for an empty document; otherwise every
     * field must be known and the primary key present, and then every
     * field of that key reads as absent while other keys read as before.
     */
    method DeleteDocument(document: Document) returns (r: Result<(), IndexError>)
      requires Valid()
      modifies SegmentSet()
      ensures Valid() && OthersUnchanged(document)
      ensures r.Err? || |document| == 0 ==> forall i :: 0 <= i < |segments| ==> unchanged(segments[i])
      ensures |document| == 0 ==> r.Ok?
      ensures |document| > 0 && !KnownFields(document) ==> r.Err? && r.error.UnknownField?
      ensures |document| > 0 && KnownFields(document) ==>
        (r.Ok? <==> ExtractPrimaryKey(document).Some?) && (r.Err? ==> r.error == MissingPrimaryKey)
      ensures r.Ok? && |document| > 0 && ExtractPrimaryKey(document).value != [] ==>
        forall n :: GetFieldValue(ExtractPrimaryKey(document).value, n).None?
      ensures forall k, n :: Some(k) != ExtractPrimaryKey(document) ==> GetFieldValue(k, n) == old(GetFieldValue(k, n))
    {
      if |document| == 0 {
        return Ok(());
      }
      var known := HasKnownFields(document);
      if known.Err? {
        return Err(known.error);
      }
      var key := ExtractPrimaryKey(document);
      if key.None? {
        return Err(MissingPrimaryKey);
      }
      var pk := key.value;
      segments[Route(pk)].DeleteDocument(pk);
      return Ok(());
    }
  }

  /**
   * `open_or_create`: the store configuration must name the primary key;
   * the saved schema table is taken as it is, and each of the sixteen
   * segments is created empty when its directory is missing and otherwise
   * reopened from its saved files, its table replayed from the saved log.
   */
  method OpenOrCreate(config: map<string, string>, savedFields: map<string, Field>,
                      saved: seq<Option<CkvSegment.SavedSegment>>,
                      hash: Bytes -> nat, serializeKey: FieldValue -> Option<Bytes>)
    returns (r: Result<Index, IndexError>)
    requires |saved| == NUM_SEGMENTS
    requires forall i :: 0 <= i < |saved| && saved[i].Some? ==> CkvSegment.Restorable(saved[i].value)
    ensures r.Err? <==> "primary_key" !in config
    ensures r.Err? ==> r.error == MissingPrimaryKeyConfig
    ensures r.Ok? ==>
      && r.value.Valid() && fresh(r.value.SegmentSet()) && fresh(r.value.schema)
      && r.value.primaryKeyName == config["primary_key"]
      && r.value.schema.fieldTable == savedFields
      && forall i :: 0 <= i < NUM_SEGMENTS ==> r.value.segments[i].OpenedFrom(saved[i])
  {
    if "primary_key" !in config {
      return Err(MissingPrimaryKeyConfig);
    }
    var schema := new IndexSchema.New(savedFields);
    var segs: seq<CkvSegment.Segment> := [];
    for i := 0 to NUM_SEGMENTS
      invariant |segs| == i
      invariant forall a, b :: 0 <= a < b < i ==> segs[a] != segs[b]
      invariant forall a :: 0 <= a < i ==> fresh(segs[a]) && segs[a].Valid() && segs[a].OpenedFrom(saved[a])
      invariant schema.fieldTable == savedFields
    {
      var s: CkvSegment.Segment;
      if saved[i].None? {
        s := new CkvSegment.Segment.Create();
      } else {
        var files := saved[i].value;
        s := new CkvSegment.Segment.Reopen(files.log, files.mmap, files.writeOffset);
      }
      segs := segs + [s];
    }
    var index := new Index.Init(segs, schema, config["primary_key"], hash, serializeKey);
    return Ok(index);
  }
}
