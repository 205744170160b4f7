/**
 * The string-keyed stream publisher: each document becomes an event that
 * also lists the schemas of the document's fields the store knows, keyed
 * by the partitioning key's string form; sends are attempted a bounded
 * number of times and their failures swallowed.
 */
module WritesPublisher {
  import opened Wrappers
  import opened JavaExceptions
  import opened GatewayTypes
  import opened StoreContext
  import opened Extractor

  /** Attempts per record. */
  const NUM_RETRIES: int := 3

  /** The schemas of the names the store knows, in the order of the names. */
  function KnownSchemas(names: seq<string>, knownFields: map<string, FieldSchema>): (r: seq<FieldSchema>)
    ensures |r| <= |names|
    decreases |names|
  {
    if names == [] then []
    else
      var last := names[|names| - 1];
      KnownSchemas(names[..|names| - 1], knownFields) + (if last in knownFields then [knownFields[last]] else [])
  }

  lemma KnownSchemasSnoc(names: seq<string>, name: string, knownFields: map<string, FieldSchema>)
    ensures KnownSchemas(names + [name], knownFields) ==
      KnownSchemas(names, knownFields) + (if name in knownFields then [knownFields[name]] else [])
  {
    assert (names + [name])[..|names|] == names;
  }

  /**
   * The list keeps exactly the schemas of the known names: every known name
   * contributes its schema, and unknown names are dropped without a trace.
   */
  lemma {:induction false} KnownSchemasExact(names: seq<string>, knownFields: map<string, FieldSchema>)
    ensures (set s | s in KnownSchemas(names, knownFields)) == (set n | n in names && n in knownFields :: knownFields[n])
    decreases |names|
  {
    if names != [] {
      var init, last := names[..|names| - 1], names[|names| - 1];
      KnownSchemasExact(init, knownFields);
      assert names == init + [last];
      var before := set n | n in init && n in knownFields :: knownFields[n];
      var after := set n | n in names && n in knownFields :: knownFields[n];
      if last in knownFields {
        assert after == before + {knownFields[last]};
      } else {
        assert after == before;
      }
    }
  }

  /** A document none of whose names the store knows carries an empty schema list. */
  lemma KnownSchemasOfUnknown(names: seq<string>, knownFields: map<string, FieldSchema>)
    requires forall n :: n in names ==> n !in knownFields
    ensures KnownSchemas(names, knownFields) == []
  {
    KnownSchemasExact(names, knownFields);
  }

  /**
   * The record a document becomes: both keys must have string forms; the
   * key is the partitioning key's string form, and the event carries the
   * document with its known schemas (listed in the order `names`).
   */
  function EventRecord(ctx: UserStoreContext, knownFields: map<string, FieldSchema>, names: seq<string>, doc: Document, upsert: bool)
    : (r: Result<ProducerRecord, Thrown>)
    ensures r.Ok? <==> ExtractPrimaryKeyAsString(ctx, doc).Ok? && ExtractPartitioningKeyAsString(ctx, doc).Ok?
    ensures r.Err? ==> r.error.IllegalArgument?
    ensures r.Ok? ==> r.value.topic == ctx.kafkaTopic && r.value.partition.None?
    ensures r.Ok? ==> r.value.key == StringKey(ExtractPartitioningKeyAsString(ctx, doc).value)
    ensures r.Ok? ==> r.value.event.fieldSchema == KnownSchemas(names, knownFields)
    ensures r.Ok? ==> r.value.event.body == if upsert then UpsertFields(doc) else DeleteDocument(doc)
  {
    var pk := ExtractPrimaryKeyAsString(ctx, doc);
    if pk.Err? then Err(pk.error)
    else
      var part := ExtractPartitioningKeyAsString(ctx, doc);
      if part.Err? then Err(part.error)
      else
        var body := if upsert then UpsertFields(doc) else DeleteDocument(doc);
        Ok(ProducerRecord(ctx.kafkaTopic, None, StringKey(part.value), DataEvent(KnownSchemas(names, knownFields), body)))
  }

  /** Java's loop count for `i < n`. */
  function Times(n: int): nat
  {
    if n > 0 then n else 0
  }

  /** `names` iterates the field names of `d`: each name of the document, exactly once. */
  ghost predicate IteratesKeys(d: Document, names: seq<string>)
  {
    && (forall n :: n in names <==> n in d)
    && forall i, j :: 0 <= i < j < |names| ==> names[i] != names[j]
  }

  /** One order a map may iterate its keys in, taken one key at a time. */
  ghost function SomeKeyOrder(d: Document): (r: seq<string>)
    ensures IteratesKeys(d, r)
    decreases |d|
  {
    if |d| == 0 then []
    else
      var k :| k in d;
      var rest := SomeKeyOrder(d - {k});
      assert k !in rest;
      assert forall i :: 0 < i < |[k] + rest| ==> ([k] + rest)[i] == rest[i - 1];
      [k] + rest
  }

  /**
   * Over any iteration order of a document's names, the schema list holds
   * exactly the schemas of the document's known names, and is no longer
   * than the document.
   */
  lemma SchemasOfKeyOrder(names: seq<string>, d: Document, knownFields: map<string, FieldSchema>)
    requires IteratesKeys(d, names)
    ensures (set s | s in KnownSchemas(names, knownFields)) == (set n | n in d && n in knownFields :: knownFields[n])
    ensures |KnownSchemas(names, knownFields)| <= |d|
  {
    KnownSchemasExact(names, knownFields);
    assert (set n | n in names && n in knownFields :: knownFields[n]) == (set n | n in d && n in knownFields :: knownFields[n]);
    assert (set n | n in names) == d.Keys;
    DistinctCard(names);
  }

  lemma {:induction false} DistinctCard(names: seq<string>)
    requires forall i, j :: 0 <= i < j < |names| ==> names[i] != names[j]
    ensures |set n | n in names| == |names|
    decreases |names|
  {
    if names != [] {
      var rest := names[1..];
      DistinctCard(rest);
      assert (set n | n in names) == {names[0]} + (set n | n in rest);
      assert names[0] !in rest;
    }
  }

  /** The loop of `createFieldSchemaList`: the schema of each known name, in the order of the names. */
  method CollectKnown(names: seq<string>, knownFields: map<string, FieldSchema>) returns (schema: seq<FieldSchema>)
    ensures schema == KnownSchemas(names, knownFields)
  {
    schema := [];
    for i := 0 to |names|
      invariant schema == KnownSchemas(names[..i], knownFields)
    {
      KnownSchemasSnoc(names[..i], names[i], knownFields);
      assert names[..i + 1] == names[..i] + [names[i]];
      if names[i] in knownFields {
        schema := schema + [knownFields[names[i]]];
      }
    }
    assert names[..|names|] == names;
  }

  /** The iteration order of a map's keys: the map decides it, and every key comes once. */
  type KeyOrder = order: Document -> seq<string> | forall d :: IteratesKeys(d, order(d))
    ghost witness SomeKeyOrder

  /**
   * The publisher, sending through one producer. `keyOrder` is the order in
   * which a document's field names are iterated, which the map decides.
   */
  class Publisher {
    const producer: Producer
    const keyOrder: KeyOrder

    constructor(producer: Producer, keyOrder: KeyOrder)
      ensures this.producer == producer && this.keyOrder == keyOrder
    {
      this.producer := producer;
      this.keyOrder := keyOrder;
    }

    /** The records of documents that all build, as the publish loops build them. */
    function Records(ctx: UserStoreContext, knownFields: map<string, FieldSchema>, docs: seq<Document>, upsert: bool): (rs: seq<ProducerRecord>)
      requires forall i :: 0 <= i < |docs| ==> EventRecord(ctx, knownFields, keyOrder(docs[i]), docs[i], upsert).Ok?
      ensures |rs| == |docs|
    {
      Built(docs, d => EventRecord(ctx, knownFields, keyOrder(d), d, upsert))
    }

    /**
     * `createFieldSchemaList`: the schemas of the document's known field
     * names, in iteration order, and no others.
     */
    method CreateFieldSchemaList(knownFields: map<string, FieldSchema>, document: Document) returns (schema: seq<FieldSchema>)
      ensures schema == KnownSchemas(keyOrder(document), knownFields)
      ensures (set s | s in schema) == (set n | n in document && n in knownFields :: knownFields[n])
      ensures |schema| <= |document|
    {
      var names := keyOrder(document);
      schema := CollectKnown(names, knownFields);
      SchemasOfKeyOrder(names, document, knownFields);
    }

    /** `blockingPublishWithRetries`: up to `numRetries` sends, stopping at the first acknowledged one; failures are swallowed. */
    method BlockingPublishWithRetries(record: ProducerRecord, numRetries: int) returns (ghost acked: bool)
      modifies producer
      ensures acked ==> producer.delivered == old(producer.delivered) + [record]
      ensures !acked ==> producer.delivered == old(producer.delivered)
      ensures |old(producer.outcomes)| <= |producer.outcomes| <= |old(producer.outcomes)| + Times(numRetries)
      ensures !acked ==> |producer.outcomes| == |old(producer.outcomes)| + Times(numRetries)
    {
      ghost var before := producer.outcomes;
      var i := 0;
      while i < numRetries
        invariant 0 <= i <= Times(numRetries)
        invariant |producer.outcomes| == |before| + i
        invariant producer.delivered == old(producer.delivered)
      {
        var failure := producer.Send(record);
        if failure.None? {
          return true;
        }
        i := i + 1;
      }
      return false;
    }

    /** `records` are, one by one, the records of the first documents of `docs`. */
    ghost predicate Listed(ctx: UserStoreContext, knownFields: map<string, FieldSchema>, docs: seq<Document>, upsert: bool, records: seq<ProducerRecord>)
    {
      |records| <= |docs|
      && forall j :: 0 <= j < |records| ==> EventRecord(ctx, knownFields, keyOrder(docs[j]), docs[j], upsert) == Ok(records[j])
    }

    lemma ListedSnoc(ctx: UserStoreContext, knownFields: map<string, FieldSchema>, docs: seq<Document>, upsert: bool, records: seq<ProducerRecord>, record: ProducerRecord)
      requires Listed(ctx, knownFields, docs, upsert, records) && |records| < |docs|
      requires EventRecord(ctx, knownFields, keyOrder(docs[|records|]), docs[|records|], upsert) == Ok(record)
      ensures Listed(ctx, knownFields, docs, upsert, records + [record])
    {
    }

    /** Listed records are `Records` of the documents they were made from. */
    lemma RecordsAre(ctx: UserStoreContext, knownFields: map<string, FieldSchema>, docs: seq<Document>, upsert: bool, records: seq<ProducerRecord>)
      requires Listed(ctx, knownFields, docs, upsert, records)
      ensures forall j :: 0 <= j < |records| ==> EventRecord(ctx, knownFields, keyOrder(docs[j]), docs[j], upsert).Ok?
      ensures forall j :: 0 <= j < |records| ==> EventRecord(ctx, knownFields, keyOrder(docs[..|records|][j]), docs[..|records|][j], upsert).Ok?
      ensures Records(ctx, knownFields, docs[..|records|], upsert) == records
    {
    }

    /** A turn that sends `record` keeps the loop's bookkeeping. */
    lemma PublishAdvance(ctx: UserStoreContext, knownFields: map<string, FieldSchema>, docs: seq<Document>, upsert: bool,
                         records: seq<ProducerRecord>, acked: seq<bool>, record: ProducerRecord, a: bool,
                         base: seq<ProducerRecord>, before: seq<ProducerRecord>, after: seq<ProducerRecord>)
      requires Listed(ctx, knownFields, docs, upsert, records) && |records| < |docs| && |acked| == |records|
      requires EventRecord(ctx, knownFields, keyOrder(docs[|records|]), docs[|records|], upsert) == Ok(record)
      requires before == base + Select(records, acked) && after == before + (if a then [record] else [])
      ensures Listed(ctx, knownFields, docs, upsert, records + [record])
      ensures after == base + Select(records + [record], acked + [a])
    {
      SelectSnoc(records, acked, record, a);
      ListedSnoc(ctx, knownFields, docs, upsert, records, record);
    }

    /** When the loop stops, what it delivered is the selection of the documents' records. */
    lemma PublishFinished(ctx: UserStoreContext, knownFields: map<string, FieldSchema>, docs: seq<Document>, upsert: bool,
                          records: seq<ProducerRecord>, acked: seq<bool>, base: seq<ProducerRecord>, delivered: seq<ProducerRecord>)
      requires Listed(ctx, knownFields, docs, upsert, records) && |acked| == |records|
      requires delivered == base + Select(records, acked)
      ensures forall i :: 0 <= i < |records| ==> EventRecord(ctx, knownFields, keyOrder(docs[i]), docs[i], upsert).Ok?
      ensures delivered == base + Select(Records(ctx, knownFields, docs[..|records|], upsert), acked)
    {
      RecordsAre(ctx, knownFields, docs, upsert, records);
    }

    /**
     * One turn of the publish loop: a document whose keys do not extract
     * gives their IllegalArgumentException and sends nothing; otherwise its
     * record is sent, delivered or silently lost.
     */
    method PublishOne(ctx: UserStoreContext, knownFields: map<string, FieldSchema>, doc: Document, upsert: bool)
      returns (r: Result<(), Thrown>, ghost acked: bool)
      modifies producer
      ensures var record := EventRecord(ctx, knownFields, keyOrder(doc), doc, upsert);
        && (record.Err? ==> r == Err(record.error) && producer.delivered == old(producer.delivered))
        && (record.Ok? ==> r.Ok? && producer.delivered == old(producer.delivered) + (if acked then [record.value] else []))
    {
      var pk := ExtractPrimaryKeyAsString(ctx, doc);
      if pk.Err? {
        return Err(pk.error), false;
      }
      var partitioningKey := ExtractPartitioningKeyAsString(ctx, doc);
      if partitioningKey.Err? {
        return Err(partitioningKey.error), false;
      }
      var schema := CreateFieldSchemaList(knownFields, doc);
      var body := if upsert then UpsertFields(doc) else DeleteDocument(doc);
      var record := ProducerRecord(ctx.kafkaTopic, None, StringKey(partitioningKey.value), DataEvent(schema, body));
      acked := BlockingPublishWithRetries(record, NUM_RETRIES);
      return Ok(()), acked;
    }

    /**
     * The loop both publish methods run: documents in order; the first whose
     * keys do not extract ends it with its IllegalArgumentException; every
     * other is sent, delivered or silently lost.
     */
    method PublishEach(ctx: UserStoreContext, knownFields: map<string, FieldSchema>, docs: seq<Document>, upsert: bool)
      returns (r: Result<(), Thrown>, ghost processed: nat, ghost acked: seq<bool>)
      modifies producer
      ensures processed <= |docs| && (r.Ok? <==> processed == |docs|) && |acked| == processed
      ensures forall i :: 0 <= i < processed ==> EventRecord(ctx, knownFields, keyOrder(docs[i]), docs[i], upsert).Ok?
      ensures producer.delivered == old(producer.delivered) + Select(Records(ctx, knownFields, docs[..processed], upsert), acked)
      ensures r.Err? ==> EventRecord(ctx, knownFields, keyOrder(docs[processed]), docs[processed], upsert).Err?
      ensures r.Err? ==> r.error == EventRecord(ctx, knownFields, keyOrder(docs[processed]), docs[processed], upsert).error
    {
      ghost var records: seq<ProducerRecord> := [];
      acked := [];
      var i := 0;
      while i < |docs|
        invariant i <= |docs| && |acked| == i && |records| == i
        invariant Listed(ctx, knownFields, docs, upsert, records)
        invariant producer.delivered == old(producer.delivered) + Select(records, acked)
      {
        var one;
        ghost var a;
        one, a := PublishOne(ctx, knownFields, docs[i], upsert);
        if one.Err? {
          PublishFinished(ctx, knownFields, docs, upsert, records, acked, old(producer.delivered), producer.delivered);
          return one, i, acked;
        }
        ghost var record := EventRecord(ctx, knownFields, keyOrder(docs[i]), docs[i], upsert).value;
        PublishAdvance(ctx, knownFields, docs, upsert, records, acked, record, a,
                       old(producer.delivered), old(producer.delivered) + Select(records, acked), producer.delivered);
        records, acked := records + [record], acked + [a];
        i := i + 1;
      }
      PublishFinished(ctx, knownFields, docs, upsert, records, acked, old(producer.delivered), producer.delivered);
      return Ok(()), i, acked;
    }

    /**
     * `publishFieldUpserts`: a null context or collection throws
     * NullPointerException, an empty one publishes nothing, and otherwise
     * the documents are published in order until the first whose keys do
     * not extract.
     */
    method PublishFieldUpserts(ctx: Option<UserStoreContext>, knownFields: map<string, FieldSchema>, fieldMaps: Option<seq<Document>>)
      returns (r: Result<(), Thrown>, ghost processed: nat, ghost acked: seq<bool>)
      modifies producer
      ensures ctx.None? || fieldMaps.None? ==> r == Err(NullPointer) && producer.outcomes == old(producer.outcomes)
      ensures ctx.Some? && fieldMaps == Some([]) ==> r.Ok? && producer.outcomes == old(producer.outcomes)
      ensures ctx.Some? && fieldMaps.Some? ==>
        && processed <= |fieldMaps.value| && (r.Ok? <==> processed == |fieldMaps.value|) && |acked| == processed
        && (forall i :: 0 <= i < processed ==> EventRecord(ctx.value, knownFields, keyOrder(fieldMaps.value[i]), fieldMaps.value[i], true).Ok?)
        && producer.delivered == old(producer.delivered) + Select(Records(ctx.value, knownFields, fieldMaps.value[..processed], true), acked)
    {
      if ctx.None? || fieldMaps.None? {
        return Err(NullPointer), 0, [];
      }
      if |fieldMaps.value| == 0 {
        return Ok(()), 0, [];
      }
      r, processed, acked := PublishEach(ctx.value, knownFields, fieldMaps.value, true);
    }

    /** `publishDocumentDeletes`: as the upserts, each event carrying the whole document id map. */
    method PublishDocumentDeletes(ctx: Option<UserStoreContext>, knownFields: map<string, FieldSchema>, documentIds: Option<seq<Document>>)
      returns (r: Result<(), Thrown>, ghost processed: nat, ghost acked: seq<bool>)
      modifies producer
      ensures ctx.None? || documentIds.None? ==> r == Err(NullPointer) && producer.outcomes == old(producer.outcomes)
      ensures ctx.Some? && documentIds == Some([]) ==> r.Ok? && producer.outcomes == old(producer.outcomes)
      ensures ctx.Some? && documentIds.Some? ==>
        && processed <= |documentIds.value| && (r.Ok? <==> processed == |documentIds.value|) && |acked| == processed
        && (forall i :: 0 <= i < processed ==> EventRecord(ctx.value, knownFields, keyOrder(documentIds.value[i]), documentIds.value[i], false).Ok?)
        && producer.delivered == old(producer.delivered) + Select(Records(ctx.value, knownFields, documentIds.value[..processed], false), acked)
    {
      if ctx.None? || documentIds.None? {
        return Err(NullPointer), 0, [];
      }
      if |documentIds.value| == 0 {
        return Ok(()), 0, [];
      }
      r, processed, acked := PublishEach(ctx.value, knownFields, documentIds.value, false);
    }
  }
}
