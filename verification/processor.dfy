/**
 * The writes processor: each event of the data stream becomes at most one
 * call on the columnar index. The index call itself is a parameter, so the
 * dispatch is stated independently of what the index does with it.
 */
module KafkaProcessor {
  import opened Wrappers
  import CkvIndex

  type Document = CkvIndex.Document

  /** The inner events of a data event; a missing document is `None`. */
  datatype Event =
    | UpsertDocumentFields(document: Option<Document>)
    | DeleteDocumentFields(documentId: Option<Document>, fieldsToDelete: seq<string>)
    | DeleteDocument(documentId: Option<Document>)
    | DropField(fieldNames: seq<string>, fieldNamePrefixes: seq<string>, dropAll: bool)

  /** A data event, whose inner event may be absent. */
  datatype DataEvent = DataEvent(event: Option<Event>)

  /** The index operations the processor can call. */
  datatype IndexCall =
    | UpsertFieldValues(document: Document)
    | DeleteFieldValues(document: Document, fieldNames: seq<string>)
    | DeleteDocumentCall(document: Document)
    | DropFields(fieldNames: seq<string>, fieldNamePrefixes: seq<string>)
    | DropAllDocuments

  /** The call `e` asks for carries `e`'s own document and names. */
  predicate Handles(e: Event, c: IndexCall)
  {
    match e
    case UpsertDocumentFields(d) => d.Some? && c == UpsertFieldValues(d.value)
    case DeleteDocumentFields(d, names) => d.Some? && c == DeleteFieldValues(d.value, names)
    case DeleteDocument(d) => d.Some? && c == DeleteDocumentCall(d.value)
    case DropField(names, prefixes, _) =>
      if names != [] || prefixes != [] then c == DropFields(names, prefixes) else c == DropAllDocuments
  }

  /** `process_upsert`: no call without a document. */
  function ProcessUpsert(document: Option<Document>): (r: Option<IndexCall>)
    ensures r.None? <==> document.None?
    ensures r.Some? ==> Handles(UpsertDocumentFields(document), r.value)
  {
    if document.None? then None else Some(UpsertFieldValues(document.value))
  }

  /** `process_field_delete`: no call without a document or with no field names. */
  function ProcessFieldDelete(documentId: Option<Document>, fieldsToDelete: seq<string>): (r: Option<IndexCall>)
    ensures r.None? <==> documentId.None? || fieldsToDelete == []
    ensures r.Some? ==> Handles(DeleteDocumentFields(documentId, fieldsToDelete), r.value)
  {
    if documentId.None? then None
    else if |fieldsToDelete| == 0 then None
    else Some(DeleteFieldValues(documentId.value, fieldsToDelete))
  }

  /** `process_document_delete`: no call without a document. */
  function ProcessDocumentDelete(documentId: Option<Document>): (r: Option<IndexCall>)
    ensures r.None? <==> documentId.None?
    ensures r.Some? ==> Handles(DeleteDocument(documentId), r.value)
  {
    if documentId.None? then None else Some(DeleteDocumentCall(documentId.value))
  }

  /**
   * `process_drop_fields`: names or prefixes win over the drop-all flag;
   * with neither and no flag nothing happens.
   */
  function ProcessDropFields(fieldNames: seq<string>, fieldNamePrefixes: seq<string>, dropAll: bool): (r: Option<IndexCall>)
    ensures fieldNames != [] || fieldNamePrefixes != [] ==> r == Some(DropFields(fieldNames, fieldNamePrefixes))
    ensures fieldNames == [] && fieldNamePrefixes == [] ==> (r.Some? <==> dropAll)
    ensures r.Some? ==> Handles(DropField(fieldNames, fieldNamePrefixes, dropAll), r.value)
  {
    if |fieldNames| != 0 || |fieldNamePrefixes| != 0 then Some(DropFields(fieldNames, fieldNamePrefixes))
    else if dropAll then Some(DropAllDocuments)
    else None
  }

  /** The event is one the processor accepts without calling the index. */
  predicate IsNoop(event: DataEvent)
  {
    match event.event
    case None => true
    case Some(UpsertDocumentFields(d)) => d.None?
    case Some(DeleteDocumentFields(d, names)) => d.None? || names == []
    case Some(DeleteDocument(d)) => d.None?
    case Some(DropField(names, prefixes, all)) => names == [] && prefixes == [] && !all
  }

  /** The dispatch of `process`: which index call, if any, the event makes. */
  function Dispatch(event: DataEvent): (r: Option<IndexCall>)
    ensures r.None? <==> IsNoop(event)
    ensures r.Some? ==> Handles(event.event.value, r.value)
  {
    match event.event
    case None => None
    case Some(UpsertDocumentFields(d)) => ProcessUpsert(d)
    case Some(DeleteDocumentFields(d, names)) => ProcessFieldDelete(d, names)
    case Some(DeleteDocument(d)) => ProcessDocumentDelete(d)
    case Some(DropField(names, prefixes, all)) => ProcessDropFields(names, prefixes, all)
  }

  /**
   * `process`: Ok for a no-op event, otherwise exactly the result of the one
   * index call the event asks for.
   */
  function Process<E>(event: DataEvent, perform: IndexCall -> Result<(), E>): (r: Result<(), E>)
    ensures IsNoop(event) ==> r == Ok(())
    ensures !IsNoop(event) ==> exists c :: Handles(event.event.value, c) && r == perform(c)
  {
    match Dispatch(event)
    case None => Ok(())
    case Some(c) => perform(c)
  }

  /** Any event's call is determined by the event: two calls it handles are equal. */
  lemma HandlesUnique(e: Event, c1: IndexCall, c2: IndexCall)
    requires Handles(e, c1) && Handles(e, c2)
    ensures c1 == c2
  {
  }
}
