/**
 * Values shared by the gateway's write path: the field values a request
 * carries, the events it publishes to the stream, the Java exceptions it
 * throws, and the stream producer, whose sends may fail.
 */
module GatewayTypes {
  import opened Wrappers
  import opened JavaExceptions
  import opened ByteCodec
  import CkvSegment

  /** The protocol's field-type enumeration, shared with the index. */
  type FieldType = CkvSegment.FieldType

  /** A request's field value by its value case; `OtherValue` stands for every numeric case. */
  datatype FieldValue = NotSet | StringValue(text: string) | BytesValue(bytes: Bytes) | OtherValue(payload: Bytes)

  /** A document as the gateway sees it: field name to value. */
  type Document = map<string, FieldValue>

  datatype FieldSchema = FieldSchema(name: string, id: int, fieldType: FieldType)

  /** What an event asks the readers to do. */
  datatype EventBody =
    | UpsertFields(document: Document)
    | DeleteFields(documentId: Document, fieldsToDelete: seq<string>)
    | DeleteDocument(documentId: Document)
    | UpdateFieldSchema(newFieldsToAdd: seq<FieldSchema>)

  /** An event on the stream; its header is empty everywhere, so it is not modelled. */
  datatype DataEvent = DataEvent(fieldSchema: seq<FieldSchema>, body: EventBody)

  /** The key a record is partitioned by: none, a field value, or a string. */
  datatype RecordKey = NullKey | ValueKey(value: FieldValue) | StringKey(text: string)

  /** A producer record: topic, explicit partition (if any), key and event. */
  datatype ProducerRecord = ProducerRecord(topic: string, partition: Option<int>, key: RecordKey, event: DataEvent)

  /** The records of documents that all build. */
  function Built(docs: seq<Document>, build: Document -> Result<ProducerRecord, Thrown>): (rs: seq<ProducerRecord>)
    requires forall i :: 0 <= i < |docs| ==> build(docs[i]).Ok?
    ensures |rs| == |docs| && forall i :: 0 <= i < |docs| ==> rs[i] == build(docs[i]).value
  {
    seq(|docs|, i requires 0 <= i < |docs| => build(docs[i]).value)
  }

  lemma BuiltSnoc(docs: seq<Document>, i: nat, build: Document -> Result<ProducerRecord, Thrown>)
    requires i < |docs| && forall j :: 0 <= j <= i ==> build(docs[j]).Ok?
    ensures Built(docs[..i + 1], build) == Built(docs[..i], build) + [build(docs[i]).value]
  {
  }

  /** `records` are, one by one, what `build` makes of the first documents of `docs`. */
  ghost predicate BuiltPrefix(docs: seq<Document>, build: Document -> Result<ProducerRecord, Thrown>, records: seq<ProducerRecord>)
  {
    |records| <= |docs| && forall j :: 0 <= j < |records| ==> build(docs[j]) == Ok(records[j])
  }

  lemma BuiltPrefixSnoc(docs: seq<Document>, build: Document -> Result<ProducerRecord, Thrown>, records: seq<ProducerRecord>, record: ProducerRecord)
    requires BuiltPrefix(docs, build, records) && |records| < |docs| && build(docs[|records|]) == Ok(record)
    ensures BuiltPrefix(docs, build, records + [record])
  {
  }

  /** A built prefix is `Built` of the documents it was made from. */
  lemma BuiltPrefixIsBuilt(docs: seq<Document>, build: Document -> Result<ProducerRecord, Thrown>, records: seq<ProducerRecord>)
    requires BuiltPrefix(docs, build, records)
    ensures forall j :: 0 <= j < |records| ==> build(docs[j]).Ok?
    ensures forall j :: 0 <= j < |records| ==> build(docs[..|records|][j]).Ok?
    ensures Built(docs[..|records|], build) == records
  {
  }

  /** The first `n` copies of a record. */
  function Repeat(r: ProducerRecord, n: nat): (rs: seq<ProducerRecord>)
    ensures |rs| == n && forall i :: 0 <= i < n ==> rs[i] == r
    decreases n
  {
    if n == 0 then [] else Repeat(r, n - 1) + [r]
  }

  /** A sequence of nothing but `r` is that many copies of `r`. */
  lemma RepeatOf(rs: seq<ProducerRecord>, r: ProducerRecord)
    requires forall j :: 0 <= j < |rs| ==> rs[j] == r
    ensures rs == Repeat(r, |rs|)
  {
  }

  /** The records whose flag is set, in their order. */
  function Select(rs: seq<ProducerRecord>, acked: seq<bool>): (r: seq<ProducerRecord>)
    requires |rs| == |acked|
    ensures |r| <= |rs|
    decreases |rs|
  {
    if rs == [] then []
    else Select(rs[..|rs| - 1], acked[..|acked| - 1]) + (if acked[|acked| - 1] then [rs[|rs| - 1]] else [])
  }

  lemma SelectSnoc(rs: seq<ProducerRecord>, acked: seq<bool>, r: ProducerRecord, a: bool)
    requires |rs| == |acked|
    ensures Select(rs + [r], acked + [a]) == Select(rs, acked) + (if a then [r] else [])
  {
    assert (rs + [r])[..|rs|] == rs;
    assert (acked + [a])[..|acked|] == acked;
  }

  /** Only records of `rs` come out of a selection. */
  lemma {:induction false} SelectIn(rs: seq<ProducerRecord>, acked: seq<bool>, x: ProducerRecord)
    requires |rs| == |acked| && x in Select(rs, acked)
    ensures x in rs
    decreases |rs|
  {
    if rs != [] {
      var init, last := rs[..|rs| - 1], rs[|rs| - 1];
      if x in Select(init, acked[..|acked| - 1]) {
        SelectIn(init, acked[..|acked| - 1], x);
        assert init[..] <= rs;
      }
    }
  }

  /**
   * The stream producer. A send either is acknowledged, and the broker then
   * holds the record, or fails with an exception; which one happens is not
   * the gateway's choice.
   */
  class Producer {
    /** The records the broker acknowledged, in order. */
    var delivered: seq<ProducerRecord>
    /** One entry per send: None when acknowledged, else the failure. */
    var outcomes: seq<Option<Thrown>>

    constructor()
      ensures delivered == [] && outcomes == []
    {
      delivered := [];
      outcomes := [];
    }

    /** `send(record).get()`: blocks until the broker answers. */
    method Send(record: ProducerRecord) returns (failure: Option<Thrown>)
      modifies this
      ensures outcomes == old(outcomes) + [failure]
      ensures failure.None? ==> delivered == old(delivered) + [record]
      ensures failure.Some? ==> delivered == old(delivered)
    {
      failure := *;
      outcomes := outcomes + [failure];
      if failure.None? {
        delivered := delivered + [record];
      }
    }
  }
}
