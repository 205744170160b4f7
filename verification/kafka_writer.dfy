/**
 * The gateway's stream writer: each document of a batch becomes one event,
 * keyed by its partitioning-key value and sent with a bounded number of
 * attempts; the first document that cannot be published ends the batch
 * with an exception, and the ones before it stay published.
 */
module KafkaWriter {
  import opened Wrappers
  import opened JavaExceptions
  import opened GatewayTypes
  import opened StoreContext

  /** Attempts per record. */
  const NUM_RETRIES: int := 3

  const PRIMARY_KEY_MISSING := "primaryKey missing"
  const PARTITIONING_KEY_MISSING := "partitioningKey missing"
  const DELETE_WITHOUT_PRIMARY_KEY := "Cannot delete without primary-key"
  const DELETE_WITHOUT_PARTITIONING_KEY := "Cannot delete without partitioning-key"

  /** How a failed send surfaces: a checked failure is wrapped in a RuntimeException, an unchecked one is rethrown as it is. */
  function Surfaced(e: Thrown): (r: Thrown)
    ensures IsUnchecked(r)
    ensures IsUnchecked(e) ==> r == e
  {
    if IsUnchecked(e) then e else Runtime
  }

  /** The record an upsert document becomes, or the IllegalArgumentException for its missing key. */
  function UpsertRecord(ctx: UserStoreContext, doc: Document): (r: Result<ProducerRecord, Thrown>)
    ensures r.Ok? <==> ctx.primaryKeyFieldName in doc && ctx.partitioningKeyFieldName in doc
    ensures ctx.primaryKeyFieldName !in doc ==> r == Err(IllegalArgument(PRIMARY_KEY_MISSING))
    ensures ctx.primaryKeyFieldName in doc && ctx.partitioningKeyFieldName !in doc ==> r == Err(IllegalArgument(PARTITIONING_KEY_MISSING))
    ensures r.Ok? ==> r.value.topic == ctx.kafkaTopic && r.value.partition.None? && r.value.key == ValueKey(doc[ctx.partitioningKeyFieldName])
    ensures r.Ok? ==> r.value.event == DataEvent([], UpsertFields(doc))
  {
    if ctx.primaryKeyFieldName !in doc then Err(IllegalArgument(PRIMARY_KEY_MISSING))
    else if ctx.partitioningKeyFieldName !in doc then Err(IllegalArgument(PARTITIONING_KEY_MISSING))
    else
      var event := DataEvent([], UpsertFields(doc));
      Ok(ProducerRecord(ctx.kafkaTopic, None, ValueKey(doc[ctx.partitioningKeyFieldName]), event))
  }

  /** The check both deletes make: primary key, then partitioning key. */
  function DeleteKeyError(ctx: UserStoreContext, doc: Document): (r: Option<Thrown>)
    ensures r.None? <==> ctx.primaryKeyFieldName in doc && ctx.partitioningKeyFieldName in doc
    ensures ctx.primaryKeyFieldName !in doc ==> r == Some(IllegalArgument(DELETE_WITHOUT_PRIMARY_KEY))
    ensures ctx.primaryKeyFieldName in doc && ctx.partitioningKeyFieldName !in doc ==> r == Some(IllegalArgument(DELETE_WITHOUT_PARTITIONING_KEY))
  {
    if ctx.primaryKeyFieldName !in doc then Some(IllegalArgument(DELETE_WITHOUT_PRIMARY_KEY))
    else if ctx.partitioningKeyFieldName !in doc then Some(IllegalArgument(DELETE_WITHOUT_PARTITIONING_KEY))
    else None
  }

  /** A delete's document id: the primary-key field alone. */
  function Identity(ctx: UserStoreContext, doc: Document): (id: Document)
    requires ctx.primaryKeyFieldName in doc
    ensures id.Keys == {ctx.primaryKeyFieldName} && id[ctx.primaryKeyFieldName] == doc[ctx.primaryKeyFieldName]
  {
    map[ctx.primaryKeyFieldName := doc[ctx.primaryKeyFieldName]]
  }

  /** The record a field delete becomes: only the primary key travels, with the field names. */
  function FieldDeleteRecord(ctx: UserStoreContext, doc: Document, fieldNames: seq<string>): (r: Result<ProducerRecord, Thrown>)
    ensures r.Err? <==> DeleteKeyError(ctx, doc).Some?
    ensures r.Err? ==> r.error == DeleteKeyError(ctx, doc).value
    ensures r.Ok? ==> r.value.topic == ctx.kafkaTopic && r.value.partition.None? && r.value.key == ValueKey(doc[ctx.partitioningKeyFieldName])
    ensures r.Ok? ==> r.value.event == DataEvent([], DeleteFields(Identity(ctx, doc), fieldNames))
  {
    match DeleteKeyError(ctx, doc)
    case Some(e) => Err(e)
    case None =>
      var event := DataEvent([], DeleteFields(Identity(ctx, doc), fieldNames));
      Ok(ProducerRecord(ctx.kafkaTopic, None, ValueKey(doc[ctx.partitioningKeyFieldName]), event))
  }

  /** The record a document delete becomes: only the primary key travels. */
  function DocumentDeleteRecord(ctx: UserStoreContext, doc: Document): (r: Result<ProducerRecord, Thrown>)
    ensures r.Err? <==> DeleteKeyError(ctx, doc).Some?
    ensures r.Err? ==> r.error == DeleteKeyError(ctx, doc).value
    ensures r.Ok? ==> r.value.topic == ctx.kafkaTopic && r.value.partition.None? && r.value.key == ValueKey(doc[ctx.partitioningKeyFieldName])
    ensures r.Ok? ==> r.value.event == DataEvent([], DeleteDocument(Identity(ctx, doc)))
  {
    match DeleteKeyError(ctx, doc)
    case Some(e) => Err(e)
    case None =>
      var event := DataEvent([], DeleteDocument(Identity(ctx, doc)));
      Ok(ProducerRecord(ctx.kafkaTopic, None, ValueKey(doc[ctx.partitioningKeyFieldName]), event))
  }

  /** Deletes never forward a document's other fields: two ids with the same keys give the same record. */
  lemma DeletesIgnoreOtherFields(ctx: UserStoreContext, a: Document, b: Document, fieldNames: seq<string>)
    requires ctx.primaryKeyFieldName in a && ctx.primaryKeyFieldName in b && ctx.partitioningKeyFieldName in a && ctx.partitioningKeyFieldName in b
    requires a[ctx.primaryKeyFieldName] == b[ctx.primaryKeyFieldName] && a[ctx.partitioningKeyFieldName] == b[ctx.partitioningKeyFieldName]
    ensures FieldDeleteRecord(ctx, a, fieldNames) == FieldDeleteRecord(ctx, b, fieldNames)
    ensures DocumentDeleteRecord(ctx, a) == DocumentDeleteRecord(ctx, b)
  {
    assert Identity(ctx, a) == Identity(ctx, b);
  }

  /** The outcomes a retry run adds: at least one and at most `n`, every one but the last a failure. */
  predicate Retried(before: seq<Option<Thrown>>, after: seq<Option<Thrown>>, n: int)
  {
    && |before| < |after| <= |before| + n
    && after[..|before|] == before
    && forall j :: |before| <= j < |after| - 1 ==> after[j].Some?
  }

  /** A run of the batch loop: what `published` documents did to the producer's log. */
  predicate BatchRun(before: seq<Option<Thrown>>, after: seq<Option<Thrown>>, published: nat)
  {
    |before| <= |after| <= |before| + NUM_RETRIES * published && after[..|before|] == before
  }

  /** The gateway's writer, publishing through one producer. */
  class Writer {
    const producer: Producer

    constructor(producer: Producer)
      ensures this.producer == producer
    {
      this.producer := producer;
    }

    /**
     * `publishToKafkaWithRetries`: a non-positive count is an
     * IllegalArgumentException; otherwise up to `numRetries` sends, stopping
     * at the first acknowledged one; when none is, the last failure is
     * thrown (wrapped when checked).
     */
    method PublishToKafkaWithRetries(record: ProducerRecord, numRetries: int) returns (r: Result<(), Thrown>)
      modifies producer
      ensures numRetries <= 0 ==> r == Err(IllegalArgument("")) && producer.outcomes == old(producer.outcomes)
      ensures numRetries > 0 ==> Retried(old(producer.outcomes), producer.outcomes, numRetries)
      ensures numRetries > 0 ==> (r.Ok? <==> producer.outcomes[|producer.outcomes| - 1].None?)
      ensures r.Ok? ==> producer.delivered == old(producer.delivered) + [record]
      ensures r.Err? ==> producer.delivered == old(producer.delivered)
      ensures numRetries > 0 && r.Err? ==>
        |producer.outcomes| == |old(producer.outcomes)| + numRetries && r.error == Surfaced(producer.outcomes[|producer.outcomes| - 1].value)
    {
      if numRetries <= 0 {
        return Err(IllegalArgument(""));
      }
      ghost var before := producer.outcomes;
      var error := Runtime;
      var i := 0;
      while i < numRetries
        invariant 0 <= i <= numRetries
        invariant |producer.outcomes| == |before| + i && producer.outcomes[..|before|] == before
        invariant forall j :: |before| <= j < |producer.outcomes| ==> producer.outcomes[j].Some?
        invariant producer.delivered == old(producer.delivered)
        invariant i > 0 ==> error == Surfaced(producer.outcomes[|producer.outcomes| - 1].value)
      {
        var failure := producer.Send(record);
        if failure.None? {
          return Ok(());
        }
        error := Surfaced(failure.value);
        i := i + 1;
      }
      return Err(error);
    }

    /**
     * The loop the three publish methods share: documents in order, each
     * built into a record and published; the first that fails to build or
     * to publish ends the loop with its exception.
     */
    method PublishInOrder(docs: seq<Document>, build: Document -> Result<ProducerRecord, Thrown>) returns (r: Result<(), Thrown>, ghost published: nat)
      modifies producer
      ensures published <= |docs| && (r.Ok? <==> published == |docs|)
      ensures forall i :: 0 <= i < published ==> build(docs[i]).Ok?
      ensures producer.delivered == old(producer.delivered) + Built(docs[..published], build)
      ensures r.Ok? ==> BatchRun(old(producer.outcomes), producer.outcomes, published)
      ensures r.Err? ==> BatchRun(old(producer.outcomes), producer.outcomes, published + 1)
      ensures r.Err? && build(docs[published]).Err? ==> r.error == build(docs[published]).error
      ensures r.Err? && build(docs[published]).Ok? ==>
        |producer.outcomes| > 0 && producer.outcomes[|producer.outcomes| - 1].Some? &&
        r.error == Surfaced(producer.outcomes[|producer.outcomes| - 1].value)
    {
      ghost var before := producer.outcomes;
      ghost var appended: seq<ProducerRecord> := [];
      var i := 0;
      while i < |docs|
        invariant i <= |docs|
        invariant forall j :: 0 <= j < i ==> build(docs[j]).Ok?
        invariant appended == Built(docs[..i], build)
        invariant producer.delivered == old(producer.delivered) + appended
        invariant BatchRun(before, producer.outcomes, i)
      {
        var record := build(docs[i]);
        if record.Err? {
          return Err(record.error), i;
        }
        ghost var mid := producer.outcomes;
        var sent := PublishToKafkaWithRetries(record.value, NUM_RETRIES);
        assert producer.outcomes[..|before|] == before by {
          assert producer.outcomes[..|mid|] == mid;
        }
        if sent.Err? {
          return sent, i;
        }
        BuiltSnoc(docs, i, build);
        appended := appended + [record.value];
        i := i + 1;
      }
      assert docs[..i] == docs;
      return Ok(()), i;
    }

    /**
     * `publishDocumentUpserts`: null arguments throw NullPointerException; an
     * empty batch publishes nothing; otherwise every document carrying both
     * keys is published in order until the first that cannot be.
     */
    method PublishDocumentUpserts(ctx: Option<UserStoreContext>, documents: Option<seq<Document>>) returns (r: Result<(), Thrown>, ghost published: nat)
      modifies producer
      ensures ctx.None? || documents.None? ==> r == Err(NullPointer) && producer.outcomes == old(producer.outcomes)
      ensures documents == Some([]) && ctx.Some? ==> r.Ok? && producer.outcomes == old(producer.outcomes)
      ensures r.Err? && r.error != NullPointer ==> ctx.Some? && documents.Some? && published < |documents.value|
      ensures ctx.Some? && documents.Some? ==>
        var docs := documents.value;
        var build := d => UpsertRecord(ctx.value, d);
        && published <= |docs| && (r.Ok? <==> published == |docs|)
        && (forall i :: 0 <= i < published ==> build(docs[i]).Ok?)
        && producer.delivered == old(producer.delivered) + Built(docs[..published], build)
        && (r.Err? && build(docs[published]).Err? ==> r.error == build(docs[published]).error)
        && (r.Err? && build(docs[published]).Ok? ==> IsUnchecked(r.error))
    {
      if ctx.None? || documents.None? {
        return Err(NullPointer), 0;
      }
      if |documents.value| == 0 {
        return Ok(()), 0;
      }
      var context := ctx.value;
      r, published := PublishInOrder(documents.value, d => UpsertRecord(context, d));
    }

    /**
     * `publishDocumentFieldDeletes`: as the upserts, with nothing published
     * when either the ids or the field names are empty, and each event
     * carrying the primary key and the field names only.
     */
    method PublishDocumentFieldDeletes(ctx: Option<UserStoreContext>, documentIds: Option<seq<Document>>, fieldNames: Option<seq<string>>)
      returns (r: Result<(), Thrown>, ghost published: nat)
      modifies producer
      ensures ctx.None? || documentIds.None? || fieldNames.None? ==> r == Err(NullPointer) && producer.outcomes == old(producer.outcomes)
      ensures ctx.Some? && (documentIds == Some([]) || fieldNames == Some([])) && documentIds.Some? && fieldNames.Some? ==>
        r.Ok? && producer.outcomes == old(producer.outcomes)
      ensures ctx.Some? && documentIds.Some? && fieldNames.Some? ==>
        var docs := documentIds.value;
        var build := d => FieldDeleteRecord(ctx.value, d, fieldNames.value);
        && (fieldNames.value != [] ==> published <= |docs| && (r.Ok? <==> published == |docs|))
        && (fieldNames.value != [] ==> forall i :: 0 <= i < published ==> build(docs[i]).Ok?)
        && (fieldNames.value != [] ==> producer.delivered == old(producer.delivered) + Built(docs[..published], build))
        && (fieldNames.value != [] && r.Err? && build(docs[published]).Err? ==> r.error == build(docs[published]).error)
        && (fieldNames.value != [] && r.Err? && build(docs[published]).Ok? ==> IsUnchecked(r.error))
    {
      if ctx.None? || documentIds.None? || fieldNames.None? {
        return Err(NullPointer), 0;
      }
      if |documentIds.value| == 0 || |fieldNames.value| == 0 {
        return Ok(()), 0;
      }
      var context, names := ctx.value, fieldNames.value;
      r, published := PublishInOrder(documentIds.value, d => FieldDeleteRecord(context, d, names));
    }

    /** `publishDocumentDeletes`: as the upserts, each event carrying the primary key only. */
    method PublishDocumentDeletes(ctx: Option<UserStoreContext>, documentIds: Option<seq<Document>>) returns (r: Result<(), Thrown>, ghost published: nat)
      modifies producer
      ensures ctx.None? || documentIds.None? ==> r == Err(NullPointer) && producer.outcomes == old(producer.outcomes)
      ensures documentIds == Some([]) && ctx.Some? ==> r.Ok? && producer.outcomes == old(producer.outcomes)
      ensures ctx.Some? && documentIds.Some? ==>
        var docs := documentIds.value;
        var build := d => DocumentDeleteRecord(ctx.value, d);
        && published <= |docs| && (r.Ok? <==> published == |docs|)
        && (forall i :: 0 <= i < published ==> build(docs[i]).Ok?)
        && producer.delivered == old(producer.delivered) + Built(docs[..published], build)
        && (r.Err? && build(docs[published]).Err? ==> r.error == build(docs[published]).error)
        && (r.Err? && build(docs[published]).Ok? ==> IsUnchecked(r.error))
    {
      if ctx.None? || documentIds.None? {
        return Err(NullPointer), 0;
      }
      if |documentIds.value| == 0 {
        return Ok(()), 0;
      }
      var context := ctx.value;
      r, published := PublishInOrder(documentIds.value, d => DocumentDeleteRecord(context, d));
    }
  }

  /** Every record a published upsert batch delivers is keyed by its document's partitioning value. */
  lemma UpsertsKeyedByPartitioningValue(ctx: UserStoreContext, docs: seq<Document>, i: nat)
    requires i < |docs| && forall j :: 0 <= j < |docs| ==> UpsertRecord(ctx, docs[j]).Ok?
    ensures var rs := Built(docs, d => UpsertRecord(ctx, d));
      rs[i].topic == ctx.kafkaTopic && rs[i].key == ValueKey(docs[i][ctx.partitioningKeyFieldName])
  {
  }
}
