/**
 * The gateway's write RPCs: each resolves the request's store context,
 * hands the documents to the stream writer, and answers the caller either
 * with one empty status followed by completion or with exactly one error,
 * whose code the exception's class decides.
 */
module WriteService {
  import opened Wrappers
  import opened JavaExceptions
  import opened GatewayTypes
  import opened StoreConfig
  import opened StoreContext
  import ContextAccessor
  import KafkaWriter

  const INVALID_STORE := "Invalid store configuration or credentials provided"

  /** The RPC status codes the gateway reports. */
  datatype Code = INVALID_ARGUMENT | INTERNAL | UNKNOWN

  /**
   * `propagateError`: IllegalArgumentException and NullPointerException are
   * the caller's fault; InterruptedException and every other unchecked
   * exception are internal; anything else is unknown.
   */
  function PropagateError(e: Thrown): (c: Code)
    ensures c == INVALID_ARGUMENT <==> e.IllegalArgument? || e.NullPointer?
    ensures c == INTERNAL <==> e.Interrupted? || e.IllegalState? || e.UnsupportedOperation? || e.Runtime?
    ensures c == UNKNOWN <==> !IsUnchecked(e) && !e.Interrupted?
  {
    if e.IllegalArgument? || e.NullPointer? then INVALID_ARGUMENT
    else if e.Interrupted? || IsUnchecked(e) then INTERNAL
    else UNKNOWN
  }

  /** What a response observer is told. */
  datatype Event<T> = OnNext(value: T) | OnCompleted | OnError(code: Code)

  /** The events an RPC emits for its outcome. */
  function Emitted<T>(r: Result<T, Thrown>): (events: seq<Event<T>>)
    ensures r.Ok? ==> events == [OnNext(r.value), OnCompleted]
    ensures r.Err? ==> events == [OnError(PropagateError(r.error))]
  {
    if r.Ok? then [OnNext(r.value), OnCompleted] else [OnError(PropagateError(r.error))]
  }

  /** A well-formed unary answer: one value and completion, or one error alone. */
  predicate OneAnswer<T>(events: seq<Event<T>>)
  {
    || (|events| == 2 && events[0].OnNext? && events[1].OnCompleted?)
    || (|events| == 1 && events[0].OnError?)
  }

  /** Every outcome is answered exactly once, and with an error exactly when it failed. */
  lemma EmittedIsOneAnswer<T>(r: Result<T, Thrown>)
    ensures OneAnswer(Emitted(r))
    ensures Emitted(r)[|Emitted(r)| - 1].OnError? <==> r.Err?
  {
  }

  /** A request's response stream. */
  class Observer<T> {
    var events: seq<Event<T>>

    constructor()
      ensures events == []
    {
      events := [];
    }

    method OnNext(value: T)
      modifies this
      ensures events == old(events) + [Event.OnNext(value)]
    {
      events := events + [Event.OnNext(value)];
    }

    method OnCompleted()
      modifies this
      ensures events == old(events) + [Event.OnCompleted]
    {
      events := events + [Event.OnCompleted];
    }

    method OnError(code: Code)
      modifies this
      ensures events == old(events) + [Event.OnError(code)]
    {
      events := events + [Event.OnError(code)];
    }
  }

  /** The write service, over the stream writer and the context cache. */
  class Service {
    const writer: KafkaWriter.Writer
    const accessor: ContextAccessor.Accessor

    constructor(writer: KafkaWriter.Writer, accessor: ContextAccessor.Accessor)
      ensures this.writer == writer && this.accessor == accessor
    {
      this.writer := writer;
      this.accessor := accessor;
    }

    /** Answers the observer for an outcome. */
    method Respond<T>(r: Result<T, Thrown>, observer: Observer<T>)
      modifies observer
      ensures observer.events == old(observer.events) + Emitted(r)
    {
      if r.Err? {
        observer.OnError(PropagateError(r.error));
        return;
      }
      observer.OnNext(r.value);
      observer.OnCompleted();
    }

    /**
     * The context the request names, or the exception resolving it ends in:
     * an unresolved context is an IllegalArgumentException.
     */
    method Context(initializer: Option<ContextAccessor.Initializer>) returns (r: Result<UserStoreContext, Thrown>)
      modifies accessor
      ensures var (found, cache) := ContextAccessor.Resolve(old(accessor.cache), accessor.contextSot.items, initializer);
        && accessor.cache == cache
        && (found.Err? ==> r == Err(found.error))
        && (found == Ok(None) ==> r == Err(IllegalArgument(INVALID_STORE)))
        && (found.Ok? && found.value.Some? ==> r == Ok(found.value.value))
    {
      var maybeCtx := accessor.GetCtx(initializer);
      if maybeCtx.Err? {
        return Err(maybeCtx.error);
      }
      if maybeCtx.value.None? {
        return Err(IllegalArgument(INVALID_STORE));
      }
      return Ok(maybeCtx.value.value);
    }

    /**
     * `upsertDocumentsImpl`: null arguments throw NullPointerException; an
     * empty batch succeeds without resolving a context; otherwise the
     * resolved context's writer publishes the batch.
     */
    method UpsertDocumentsImpl(initializer: Option<ContextAccessor.Initializer>, documents: Option<seq<Document>>)
      returns (r: Result<(), Thrown>, ghost published: nat)
      modifies accessor, writer.producer
      ensures initializer.None? || documents.None? ==> r == Err(NullPointer)
      ensures initializer.None? || documents.None? || documents == Some([]) ==>
        accessor.cache == old(accessor.cache) && writer.producer.outcomes == old(writer.producer.outcomes)
      ensures initializer.Some? && documents == Some([]) ==> r.Ok?
      ensures initializer.Some? && documents.Some? && documents.value != [] ==>
        var (found, cache) := ContextAccessor.Resolve(old(accessor.cache), accessor.contextSot.items, initializer);
        && accessor.cache == cache
        && (found.Err? ==> r == Err(found.error) && writer.producer.outcomes == old(writer.producer.outcomes))
        && (found == Ok(None) ==> r == Err(IllegalArgument(INVALID_STORE)) && writer.producer.outcomes == old(writer.producer.outcomes))
        && (found.Ok? && found.value.Some? ==>
              var build := d => KafkaWriter.UpsertRecord(found.value.value, d);
              && published <= |documents.value| && (r.Ok? <==> published == |documents.value|)
              && (forall i :: 0 <= i < published ==> build(documents.value[i]).Ok?)
              && writer.producer.delivered == old(writer.producer.delivered) + Built(documents.value[..published], build)
              && (r.Err? && build(documents.value[published]).Err? ==> r == Err(build(documents.value[published]).error)))
    {
      published := 0;
      if initializer.None? || documents.None? {
        return Err(NullPointer), published;
      }
      if |documents.value| == 0 {
        return Ok(()), published;
      }
      var ctx := Context(initializer);
      if ctx.Err? {
        return Err(ctx.error), published;
      }
      r, published := writer.PublishDocumentUpserts(Some(ctx.value), documents);
    }

    /**
     * `deleteDocumentFieldsImpl`: as the upserts, with nothing resolved or
     * published when either the ids or the field names are empty.
     */
    method DeleteDocumentFieldsImpl(initializer: Option<ContextAccessor.Initializer>, documentIds: Option<seq<Document>>, fieldNames: Option<seq<string>>)
      returns (r: Result<(), Thrown>, ghost published: nat)
      modifies accessor, writer.producer
      ensures initializer.None? || documentIds.None? || fieldNames.None? ==> r == Err(NullPointer)
      ensures initializer.None? || documentIds.None? || fieldNames.None? || documentIds == Some([]) || fieldNames == Some([]) ==>
        accessor.cache == old(accessor.cache) && writer.producer.outcomes == old(writer.producer.outcomes)
      ensures initializer.Some? && documentIds.Some? && fieldNames.Some? && (documentIds.value == [] || fieldNames.value == []) ==> r.Ok?
      ensures initializer.Some? && documentIds.Some? && fieldNames.Some? && documentIds.value != [] && fieldNames.value != [] ==>
        var (found, cache) := ContextAccessor.Resolve(old(accessor.cache), accessor.contextSot.items, initializer);
        && accessor.cache == cache
        && (found.Err? ==> r == Err(found.error) && writer.producer.outcomes == old(writer.producer.outcomes))
        && (found == Ok(None) ==> r == Err(IllegalArgument(INVALID_STORE)) && writer.producer.outcomes == old(writer.producer.outcomes))
        && (found.Ok? && found.value.Some? ==>
              var build := d => KafkaWriter.FieldDeleteRecord(found.value.value, d, fieldNames.value);
              && published <= |documentIds.value| && (r.Ok? <==> published == |documentIds.value|)
              && (forall i :: 0 <= i < published ==> build(documentIds.value[i]).Ok?)
              && writer.producer.delivered == old(writer.producer.delivered) + Built(documentIds.value[..published], build)
              && (r.Err? && build(documentIds.value[published]).Err? ==> r == Err(build(documentIds.value[published]).error)))
    {
      published := 0;
      if initializer.None? || documentIds.None? || fieldNames.None? {
        return Err(NullPointer), published;
      }
      if |documentIds.value| == 0 || |fieldNames.value| == 0 {
        return Ok(()), published;
      }
      var ctx := Context(initializer);
      if ctx.Err? {
        return Err(ctx.error), published;
      }
      r, published := writer.PublishDocumentFieldDeletes(Some(ctx.value), documentIds, fieldNames);
    }

    /** `deleteDocumentsImpl`: as the upserts, publishing whole-document deletes. */
    method DeleteDocumentsImpl(initializer: Option<ContextAccessor.Initializer>, documentIds: Option<seq<Document>>)
      returns (r: Result<(), Thrown>, ghost published: nat)
      modifies accessor, writer.producer
      ensures initializer.None? || documentIds.None? ==> r == Err(NullPointer)
      ensures initializer.None? || documentIds.None? || documentIds == Some([]) ==>
        accessor.cache == old(accessor.cache) && writer.producer.outcomes == old(writer.producer.outcomes)
      ensures initializer.Some? && documentIds == Some([]) ==> r.Ok?
      ensures initializer.Some? && documentIds.Some? && documentIds.value != [] ==>
        var (found, cache) := ContextAccessor.Resolve(old(accessor.cache), accessor.contextSot.items, initializer);
        && accessor.cache == cache
        && (found.Err? ==> r == Err(found.error) && writer.producer.outcomes == old(writer.producer.outcomes))
        && (found == Ok(None) ==> r == Err(IllegalArgument(INVALID_STORE)) && writer.producer.outcomes == old(writer.producer.outcomes))
        && (found.Ok? && found.value.Some? ==>
              var build := d => KafkaWriter.DocumentDeleteRecord(found.value.value, d);
              && published <= |documentIds.value| && (r.Ok? <==> published == |documentIds.value|)
              && (forall i :: 0 <= i < published ==> build(documentIds.value[i]).Ok?)
              && writer.producer.delivered == old(writer.producer.delivered) + Built(documentIds.value[..published], build)
              && (r.Err? && build(documentIds.value[published]).Err? ==> r == Err(build(documentIds.value[published]).error)))
    {
      published := 0;
      if initializer.None? || documentIds.None? {
        return Err(NullPointer), published;
      }
      if |documentIds.value| == 0 {
        return Ok(()), published;
      }
      var ctx := Context(initializer);
      if ctx.Err? {
        return Err(ctx.error), published;
      }
      r, published := writer.PublishDocumentDeletes(Some(ctx.value), documentIds);
    }

    /** `getUserStoreConfigImpl`: the resolved context's gateway-specified configuration. */
    method GetUserStoreConfigImpl(initializer: Option<ContextAccessor.Initializer>) returns (r: Result<IKVStoreConfig, Thrown>)
      modifies accessor
      ensures initializer.None? ==> r == Err(NullPointer) && accessor.cache == old(accessor.cache)
      ensures initializer.Some? ==>
        var (found, cache) := ContextAccessor.Resolve(old(accessor.cache), accessor.contextSot.items, initializer);
        && accessor.cache == cache
        && (found.Err? ==> r == Err(found.error))
        && (found == Ok(None) ==> r == Err(IllegalArgument(INVALID_STORE)))
        && (found.Ok? && found.value.Some? ==> r == Ok(CreateGatewaySpecifiedConfigs(found.value.value)))
    {
      if initializer.None? {
        return Err(NullPointer);
      }
      var ctx := Context(initializer);
      if ctx.Err? {
        return Err(ctx.error);
      }
      return Ok(CreateGatewaySpecifiedConfigs(ctx.value));
    }

    /**
     * `upsertFieldValues`: the request's one document as a batch of one; the
     * caller is told of success exactly when its record was delivered.
     */
    method UpsertFieldValues(initializer: Option<ContextAccessor.Initializer>, document: Document, observer: Observer<()>)
      returns (ghost outcome: Result<(), Thrown>)
      modifies accessor, writer.producer, observer
      ensures observer.events == old(observer.events) + Emitted(outcome)
      ensures initializer.None? ==> outcome == Err(NullPointer)
      ensures initializer.Some? ==>
        var (found, cache) := ContextAccessor.Resolve(old(accessor.cache), accessor.contextSot.items, initializer);
        && accessor.cache == cache
        && (found.Err? ==> outcome == Err(found.error))
        && (found == Ok(None) ==> outcome == Err(IllegalArgument(INVALID_STORE)))
        && (found.Ok? && found.value.Some? ==>
              var record := KafkaWriter.UpsertRecord(found.value.value, document);
              && (record.Err? ==> outcome == Err(record.error))
              && (outcome.Ok? <==> record.Ok? && writer.producer.delivered == old(writer.producer.delivered) + [record.value])
              && (outcome.Err? ==> writer.producer.delivered == old(writer.producer.delivered)))
    {
      var r;
      ghost var published;
      r, published := UpsertDocumentsImpl(initializer, Some([document]));
      assert [document][..0] == [] && [document][..1] == [document] && Some([document]).value[0] == document;
      outcome := r;
      Respond(r, observer);
    }

    /** `batchUpsertFieldValues`: the request's documents, in order, as one batch. */
    method BatchUpsertFieldValues(initializer: Option<ContextAccessor.Initializer>, documents: seq<Document>, observer: Observer<()>)
      returns (ghost outcome: Result<(), Thrown>)
      modifies accessor, writer.producer, observer
      ensures observer.events == old(observer.events) + Emitted(outcome)
      ensures initializer.None? ==> outcome == Err(NullPointer)
      ensures initializer.Some? && documents == [] ==> outcome.Ok? && accessor.cache == old(accessor.cache)
      ensures outcome.Ok? && documents != [] ==>
        var (found, _) := ContextAccessor.Resolve(old(accessor.cache), accessor.contextSot.items, initializer);
        && found.Ok? && found.value.Some?
        && (forall i :: 0 <= i < |documents| ==> KafkaWriter.UpsertRecord(found.value.value, documents[i]).Ok?)
        && writer.producer.delivered == old(writer.producer.delivered) + Built(documents, d => KafkaWriter.UpsertRecord(found.value.value, d))
    {
      var r;
      ghost var published;
      r, published := UpsertDocumentsImpl(initializer, Some(documents));
      outcome := r;
      assert documents[..|documents|] == documents;
      Respond(r, observer);
    }

    /** `deleteFieldValues`: the request's one document id as a batch of one. */
    method DeleteFieldValues(initializer: Option<ContextAccessor.Initializer>, documentId: Document, fieldNames: seq<string>, observer: Observer<()>)
      returns (ghost outcome: Result<(), Thrown>)
      modifies accessor, writer.producer, observer
      ensures observer.events == old(observer.events) + Emitted(outcome)
      ensures initializer.None? ==> outcome == Err(NullPointer)
      ensures initializer.Some? && fieldNames == [] ==> outcome.Ok? && writer.producer.outcomes == old(writer.producer.outcomes)
      ensures initializer.Some? && fieldNames != [] ==>
        var (found, cache) := ContextAccessor.Resolve(old(accessor.cache), accessor.contextSot.items, initializer);
        && accessor.cache == cache
        && (found.Err? ==> outcome == Err(found.error))
        && (found == Ok(None) ==> outcome == Err(IllegalArgument(INVALID_STORE)))
        && (found.Ok? && found.value.Some? ==>
              var record := KafkaWriter.FieldDeleteRecord(found.value.value, documentId, fieldNames);
              && (record.Err? ==> outcome == Err(record.error))
              && (outcome.Ok? <==> record.Ok? && writer.producer.delivered == old(writer.producer.delivered) + [record.value])
              && (outcome.Err? ==> writer.producer.delivered == old(writer.producer.delivered)))
    {
      var r;
      ghost var published;
      r, published := DeleteDocumentFieldsImpl(initializer, Some([documentId]), Some(fieldNames));
      assert [documentId][..0] == [] && [documentId][..1] == [documentId] && Some([documentId]).value[0] == documentId;
      outcome := r;
      Respond(r, observer);
    }

    /** `batchDeleteFieldValues`: the request's document ids, in order, as one batch. */
    method BatchDeleteFieldValues(initializer: Option<ContextAccessor.Initializer>, documentIds: seq<Document>, fieldNames: seq<string>, observer: Observer<()>)
      returns (ghost outcome: Result<(), Thrown>)
      modifies accessor, writer.producer, observer
      ensures observer.events == old(observer.events) + Emitted(outcome)
      ensures initializer.None? ==> outcome == Err(NullPointer)
      ensures initializer.Some? && (documentIds == [] || fieldNames == []) ==> outcome.Ok? && accessor.cache == old(accessor.cache)
      ensures outcome.Ok? && documentIds != [] && fieldNames != [] ==>
        var (found, _) := ContextAccessor.Resolve(old(accessor.cache), accessor.contextSot.items, initializer);
        && found.Ok? && found.value.Some?
        && (forall i :: 0 <= i < |documentIds| ==> KafkaWriter.FieldDeleteRecord(found.value.value, documentIds[i], fieldNames).Ok?)
        && writer.producer.delivered == old(writer.producer.delivered) + Built(documentIds, d => KafkaWriter.FieldDeleteRecord(found.value.value, d, fieldNames))
    {
      var r;
      ghost var published;
      r, published := DeleteDocumentFieldsImpl(initializer, Some(documentIds), Some(fieldNames));
      outcome := r;
      assert documentIds[..|documentIds|] == documentIds;
      Respond(r, observer);
    }

    /** `deleteDocument`: the request's one document id as a batch of one. */
    method DeleteDocument(initializer: Option<ContextAccessor.Initializer>, documentId: Document, observer: Observer<()>)
      returns (ghost outcome: Result<(), Thrown>)
      modifies accessor, writer.producer, observer
      ensures observer.events == old(observer.events) + Emitted(outcome)
      ensures initializer.None? ==> outcome == Err(NullPointer)
      ensures initializer.Some? ==>
        var (found, cache) := ContextAccessor.Resolve(old(accessor.cache), accessor.contextSot.items, initializer);
        && accessor.cache == cache
        && (found.Err? ==> outcome == Err(found.error))
        && (found == Ok(None) ==> outcome == Err(IllegalArgument(INVALID_STORE)))
        && (found.Ok? && found.value.Some? ==>
              var record := KafkaWriter.DocumentDeleteRecord(found.value.value, documentId);
              && (record.Err? ==> outcome == Err(record.error))
              && (outcome.Ok? <==> record.Ok? && writer.producer.delivered == old(writer.producer.delivered) + [record.value])
              && (outcome.Err? ==> writer.producer.delivered == old(writer.producer.delivered)))
    {
      var r;
      ghost var published;
      r, published := DeleteDocumentsImpl(initializer, Some([documentId]));
      assert [documentId][..0] == [] && [documentId][..1] == [documentId] && Some([documentId]).value[0] == documentId;
      outcome := r;
      Respond(r, observer);
    }

    /** `batchDeleteDocuments`: the request's document ids, in order, as one batch. */
    method BatchDeleteDocuments(initializer: Option<ContextAccessor.Initializer>, documentIds: seq<Document>, observer: Observer<()>)
      returns (ghost outcome: Result<(), Thrown>)
      modifies accessor, writer.producer, observer
      ensures observer.events == old(observer.events) + Emitted(outcome)
      ensures initializer.None? ==> outcome == Err(NullPointer)
      ensures initializer.Some? && documentIds == [] ==> outcome.Ok? && accessor.cache == old(accessor.cache)
      ensures outcome.Ok? && documentIds != [] ==>
        var (found, _) := ContextAccessor.Resolve(old(accessor.cache), accessor.contextSot.items, initializer);
        && found.Ok? && found.value.Some?
        && (forall i :: 0 <= i < |documentIds| ==> KafkaWriter.DocumentDeleteRecord(found.value.value, documentIds[i]).Ok?)
        && writer.producer.delivered == old(writer.producer.delivered) + Built(documentIds, d => KafkaWriter.DocumentDeleteRecord(found.value.value, d))
    {
      var r;
      ghost var published;
      r, published := DeleteDocumentsImpl(initializer, Some(documentIds));
      outcome := r;
      assert documentIds[..|documentIds|] == documentIds;
      Respond(r, observer);
    }

    /** `getUserStoreConfig`: the configuration as the one value, or the error. */
    method GetUserStoreConfig(initializer: Option<ContextAccessor.Initializer>, observer: Observer<IKVStoreConfig>)
      returns (ghost outcome: Result<IKVStoreConfig, Thrown>)
      modifies accessor, observer
      ensures observer.events == old(observer.events) + Emitted(outcome)
      ensures initializer.None? ==> outcome == Err(NullPointer)
      ensures initializer.Some? ==>
        var (found, _) := ContextAccessor.Resolve(old(accessor.cache), accessor.contextSot.items, initializer);
        && (found.Err? ==> outcome == Err(found.error))
        && (found == Ok(None) ==> outcome == Err(IllegalArgument(INVALID_STORE)))
        && (found.Ok? && found.value.Some? ==> outcome == Ok(CreateGatewaySpecifiedConfigs(found.value.value)))
    {
      var r := GetUserStoreConfigImpl(initializer);
      outcome := r;
      Respond(r, observer);
    }
  }
}
