/**
 * The earlier gateway writer: documents are published one by one with a
 * bounded number of attempts whose failures are swallowed, and schema
 * updates are broadcast once per stream partition, every copy addressed to
 * partition 0 with no key.
 */
module IkvWriter {
  import opened Wrappers
  import opened JavaExceptions
  import opened GatewayTypes
  import opened StoreContext
  import Extractor
  import KafkaWriter

  /** Attempts per record. */
  const NUM_RETRIES: int := 3

  /**
   * The record an upsert document becomes: the primary key must have a
   * string form, and the partitioning key must be present.
   */
  function UpsertRecord(ctx: UserStoreContext, doc: Document): (r: Result<ProducerRecord, Thrown>)
    ensures r.Ok? <==> Extractor.ExtractPrimaryKeyAsString(ctx, doc).Ok? && ctx.partitioningKeyFieldName in doc
    ensures r.Err? ==> r.error.IllegalArgument?
    ensures r.Ok? ==> r.value.topic == ctx.kafkaTopic && r.value.partition.None? && r.value.key == ValueKey(doc[ctx.partitioningKeyFieldName])
    ensures r.Ok? ==> r.value.event == DataEvent([], UpsertFields(doc))
  {
    var pk := Extractor.ExtractPrimaryKeyAsString(ctx, doc);
    if pk.Err? then Err(pk.error) else KafkaWriter.UpsertRecord(ctx, doc)
  }

  /** The record a delete becomes: the whole document id map travels. */
  function DeleteRecord(ctx: UserStoreContext, doc: Document): (r: Result<ProducerRecord, Thrown>)
    ensures r.Ok? <==> Extractor.ExtractPrimaryKeyAsString(ctx, doc).Ok? && ctx.partitioningKeyFieldName in doc
    ensures r.Err? ==> r.error.IllegalArgument?
    ensures r.Ok? ==> r.value.topic == ctx.kafkaTopic && r.value.partition.None? && r.value.key == ValueKey(doc[ctx.partitioningKeyFieldName])
    ensures r.Ok? ==> r.value.event == DataEvent([], DeleteDocument(doc))
  {
    var pk := Extractor.ExtractPrimaryKeyAsString(ctx, doc);
    if pk.Err? then Err(pk.error)
    else if ctx.partitioningKeyFieldName !in doc then Err(IllegalArgument(KafkaWriter.PARTITIONING_KEY_MISSING))
    else Ok(ProducerRecord(ctx.kafkaTopic, None, ValueKey(doc[ctx.partitioningKeyFieldName]), DataEvent([], DeleteDocument(doc))))
  }

  /** The broadcast record: the new fields, for partition 0, with no key. */
  function SchemaRecord(ctx: UserStoreContext, newFieldsToAdd: seq<FieldSchema>): ProducerRecord
  {
    ProducerRecord(ctx.kafkaTopic, Some(0), NullKey, DataEvent([], UpdateFieldSchema(newFieldsToAdd)))
  }

  /** Java's loop count for `i < n`. */
  function Times(n: int): nat
  {
    if n > 0 then n else 0
  }

  /**
   * Whatever part of a broadcast is delivered, every delivered copy is the
   * schema event addressed to partition 0 with no key.
   */
  lemma BroadcastGoesToPartitionZero(ctx: UserStoreContext, fields: seq<FieldSchema>, acked: seq<bool>, x: ProducerRecord)
    requires |acked| == Times(ctx.numKafkaPartitions)
    requires x in Select(Repeat(SchemaRecord(ctx, fields), Times(ctx.numKafkaPartitions)), acked)
    ensures x.partition == Some(0) && x.key == NullKey && x.event.body == UpdateFieldSchema(fields)
  {
    SelectIn(Repeat(SchemaRecord(ctx, fields), Times(ctx.numKafkaPartitions)), acked, x);
  }

  /** The writer, publishing through one producer. */
  class Writer {
    const producer: Producer

    constructor(producer: Producer)
      ensures this.producer == producer
    {
      this.producer := producer;
    }

    /**
     * `blockingPublishWithRetries`: up to `numRetries` sends, stopping at the
     * first acknowledged one; failures are swallowed, so the caller learns
     * nothing either way.
     */
    method BlockingPublishWithRetries(record: ProducerRecord, numRetries: int) returns (ghost acked: bool)
      modifies producer
      ensures acked ==> producer.delivered == old(producer.delivered) + [record]
      ensures !acked ==> producer.delivered == old(producer.delivered)
      ensures |old(producer.outcomes)| <= |producer.outcomes| <= |old(producer.outcomes)| + Times(numRetries)
      ensures producer.outcomes[..|old(producer.outcomes)|] == old(producer.outcomes)
      ensures !acked ==> |producer.outcomes| == |old(producer.outcomes)| + Times(numRetries)
      ensures forall j :: |old(producer.outcomes)| <= j < |producer.outcomes| - 1 ==> producer.outcomes[j].Some?
    {
      ghost var before := producer.outcomes;
      var i := 0;
      while i < numRetries
        invariant 0 <= i <= Times(numRetries)
        invariant |producer.outcomes| == |before| + i && producer.outcomes[..|before|] == before
        invariant forall j :: |before| <= j < |producer.outcomes| ==> producer.outcomes[j].Some?
        invariant producer.delivered == old(producer.delivered)
      {
        var failure := producer.Send(record);
        if failure.None? {
          return true;
        }
        i := i + 1;
      }
      return false;
    }

    /**
     * The loop both document methods share: documents in order, each built
     * into a record and handed to the swallowing publisher; the first that
     * fails to build ends the loop with its exception.
     */
    method PublishEach(docs: seq<Document>, build: Document -> Result<ProducerRecord, Thrown>)
      returns (r: Result<(), Thrown>, ghost processed: nat, ghost acked: seq<bool>)
      modifies producer
      ensures processed <= |docs| && (r.Ok? <==> processed == |docs|)
      ensures forall i :: 0 <= i < processed ==> build(docs[i]).Ok?
      ensures |acked| == processed
      ensures producer.delivered == old(producer.delivered) + Select(Built(docs[..processed], build), acked)
      ensures r.Err? ==> build(docs[processed]).Err? && r.error == build(docs[processed]).error
    {
      ghost var records: seq<ProducerRecord> := [];
      ghost var flags: seq<bool> := [];
      var i := 0;
      while i < |docs|
        invariant i <= |docs| && |flags| == i && |records| == i
        invariant BuiltPrefix(docs, build, records)
        invariant producer.delivered == old(producer.delivered) + Select(records, flags)
      {
        var record := build(docs[i]);
        if record.Err? {
          BuiltPrefixIsBuilt(docs, build, records);
          return Err(record.error), i, flags;
        }
        ghost var a := BlockingPublishWithRetries(record.value, NUM_RETRIES);
        SelectSnoc(records, flags, record.value, a);
        BuiltPrefixSnoc(docs, build, records, record.value);
        records, flags := records + [record.value], flags + [a];
        i := i + 1;
      }
      BuiltPrefixIsBuilt(docs, build, records);
      return Ok(()), i, flags;
    }

    /**
     * `publishFieldUpserts`: a null context or collection throws
     * NullPointerException, an empty collection publishes nothing, and
     * otherwise each document is published (or its send silently lost) in
     * order until the first whose keys do not extract.
     */
    method PublishFieldUpserts(ctx: Option<UserStoreContext>, fieldMaps: Option<seq<Document>>)
      returns (r: Result<(), Thrown>, ghost processed: nat, ghost acked: seq<bool>)
      modifies producer
      ensures ctx.None? || fieldMaps.None? ==> r == Err(NullPointer) && producer.outcomes == old(producer.outcomes)
      ensures ctx.Some? && fieldMaps == Some([]) ==> r.Ok? && producer.outcomes == old(producer.outcomes)
      ensures ctx.Some? && fieldMaps.Some? ==>
        var docs := fieldMaps.value;
        var build := d => UpsertRecord(ctx.value, d);
        && processed <= |docs| && (r.Ok? <==> processed == |docs|) && |acked| == processed
        && (forall i :: 0 <= i < processed ==> build(docs[i]).Ok?)
        && producer.delivered == old(producer.delivered) + Select(Built(docs[..processed], build), acked)
        && (r.Err? ==> build(docs[processed]).Err? && r.error == build(docs[processed]).error)
    {
      if ctx.None? || fieldMaps.None? {
        return Err(NullPointer), 0, [];
      }
      if |fieldMaps.value| == 0 {
        return Ok(()), 0, [];
      }
      var context := ctx.value;
      r, processed, acked := PublishEach(fieldMaps.value, d => UpsertRecord(context, d));
    }

    /**
     * `publishDocumentDeletes`: a null context throws NullPointerException;
     * a null or empty collection publishes nothing; otherwise as the upserts,
     * each event carrying the whole document id map.
     */
    method PublishDocumentDeletes(ctx: Option<UserStoreContext>, documentIds: Option<seq<Document>>)
      returns (r: Result<(), Thrown>, ghost processed: nat, ghost acked: seq<bool>)
      modifies producer
      ensures ctx.None? ==> r == Err(NullPointer) && producer.outcomes == old(producer.outcomes)
      ensures ctx.Some? && (documentIds.None? || documentIds == Some([])) ==> r.Ok? && producer.outcomes == old(producer.outcomes)
      ensures ctx.Some? && documentIds.Some? ==>
        var docs := documentIds.value;
        var build := d => DeleteRecord(ctx.value, d);
        && processed <= |docs| && (r.Ok? <==> processed == |docs|) && |acked| == processed
        && (forall i :: 0 <= i < processed ==> build(docs[i]).Ok?)
        && producer.delivered == old(producer.delivered) + Select(Built(docs[..processed], build), acked)
        && (r.Err? ==> build(docs[processed]).Err? && r.error == build(docs[processed]).error)
    {
      if ctx.None? {
        return Err(NullPointer), 0, [];
      }
      if documentIds.None? || |documentIds.value| == 0 {
        return Ok(()), 0, [];
      }
      var context := ctx.value;
      r, processed, acked := PublishEach(documentIds.value, d => DeleteRecord(context, d));
    }

    /** The broadcast loop: `numPartitions` sends of the same record, each delivered or silently lost. */
    method Broadcast(record: ProducerRecord, numPartitions: int) returns (ghost acked: seq<bool>)
      modifies producer
      ensures |acked| == Times(numPartitions)
      ensures producer.delivered == old(producer.delivered) + Select(Repeat(record, Times(numPartitions)), acked)
      ensures |producer.outcomes| <= |old(producer.outcomes)| + NUM_RETRIES * Times(numPartitions)
    {
      ghost var before := |producer.outcomes|;
      ghost var copies: seq<ProducerRecord> := [];
      acked := [];
      var i := 0;
      while i < numPartitions
        invariant 0 <= i <= Times(numPartitions) && |acked| == i && |copies| == i
        invariant forall j :: 0 <= j < i ==> copies[j] == record
        invariant producer.delivered == old(producer.delivered) + Select(copies, acked)
        invariant |producer.outcomes| <= before + NUM_RETRIES * i
      {
        ghost var a := BlockingPublishWithRetries(record, NUM_RETRIES);
        SelectSnoc(copies, acked, record, a);
        copies, acked := copies + [record], acked + [a];
        i := i + 1;
      }
      RepeatOf(copies, record);
    }

    /**
     * `publishFieldSchemaUpdates`: a null context throws NullPointerException;
     * a null or empty list publishes nothing; otherwise the same schema
     * record is published once per partition of the store, each copy
     * delivered or silently lost, and the call always returns normally.
     */
    method PublishFieldSchemaUpdates(ctx: Option<UserStoreContext>, newFieldsToAdd: Option<seq<FieldSchema>>)
      returns (r: Result<(), Thrown>, ghost acked: seq<bool>)
      modifies producer
      ensures ctx.None? <==> r.Err?
      ensures r.Err? ==> r.error == NullPointer
      ensures ctx.None? || newFieldsToAdd.None? || newFieldsToAdd == Some([]) ==> producer.outcomes == old(producer.outcomes)
      ensures ctx.Some? && newFieldsToAdd.Some? && newFieldsToAdd.value != [] ==>
        var n := Times(ctx.value.numKafkaPartitions);
        && |acked| == n
        && producer.delivered == old(producer.delivered) + Select(Repeat(SchemaRecord(ctx.value, newFieldsToAdd.value), n), acked)
        && |producer.outcomes| <= |old(producer.outcomes)| + NUM_RETRIES * n
    {
      if ctx.None? {
        return Err(NullPointer), [];
      }
      if newFieldsToAdd.None? || |newFieldsToAdd.value| == 0 {
        return Ok(()), [];
      }
      var record := SchemaRecord(ctx.value, newFieldsToAdd.value);
      acked := Broadcast(record, ctx.value.numKafkaPartitions);
      return Ok(()), acked;
    }
  }
}
