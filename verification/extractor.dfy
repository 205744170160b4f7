/**
 * Reading a document's primary and partitioning keys as strings: a key
 * must be present and hold a string or bytes (read as UTF-8).
 */
module Extractor {
  import opened Wrappers
  import opened JavaExceptions
  import opened ByteCodec
  import opened Text
  import opened GatewayTypes
  import opened StoreContext

  const PRIMARY_KEY_MISSING := "primaryKey missing"
  const PARTITIONING_KEY_MISSING := "partitioningKey missing"
  const WRONG_KEY_TYPE := "wrong data type of primary key"

  /**
   * `stringify`: only string and bytes values have a string form; an unset
   * value is reported as a missing primary key, any other as a wrong type.
   */
  function Stringify(v: FieldValue): (r: Result<string, Thrown>)
    ensures r.Ok? <==> v.StringValue? || v.BytesValue?
    ensures v.StringValue? ==> r.value == v.text
    ensures v.NotSet? ==> r.error == IllegalArgument(PRIMARY_KEY_MISSING)
    ensures v.OtherValue? ==> r.error == IllegalArgument(WRONG_KEY_TYPE)
  {
    match v
    case NotSet => Err(IllegalArgument(PRIMARY_KEY_MISSING))
    case StringValue(s) => Ok(s)
    case BytesValue(b) => Ok(Utf8DecodeLenient(b))
    case OtherValue(_) => Err(IllegalArgument(WRONG_KEY_TYPE))
  }

  /** A key sent as a string and the same key sent as its UTF-8 bytes stringify alike. */
  lemma StringifyBytesOfString(s: string)
    ensures Stringify(BytesValue(Utf8(s))) == Stringify(StringValue(s)) == Ok(s)
  {
    Utf8LenientRoundTrip(s);
  }

  /** Valid UTF-8 bytes stringify to exactly what they decode to. */
  lemma StringifyWellFormed(b: Bytes)
    requires Utf8Decode(b).Some?
    ensures Stringify(BytesValue(b)) == Ok(Utf8Decode(b).value)
  {
  }

  /** The string form of the field `name`, or the IllegalArgumentException `missing` when absent. */
  function KeyAsString(doc: Document, name: string, missing: string): (r: Result<string, Thrown>)
    ensures name !in doc ==> r == Err(IllegalArgument(missing))
    ensures name in doc ==> r == Stringify(doc[name])
  {
    if name in doc then Stringify(doc[name]) else Err(IllegalArgument(missing))
  }

  /**
   * `extractPrimaryKeyAsString`: the primary key's string form; a missing
   * key, or one that is unset or neither string nor bytes, is an
   * IllegalArgumentException.
   */
  function ExtractPrimaryKeyAsString(ctx: UserStoreContext, doc: Document): (r: Result<string, Thrown>)
    ensures r.Ok? <==> ctx.primaryKeyFieldName in doc && (doc[ctx.primaryKeyFieldName].StringValue? || doc[ctx.primaryKeyFieldName].BytesValue?)
    ensures r.Err? ==> r.error.IllegalArgument?
    ensures ctx.primaryKeyFieldName !in doc ==> r.error.message == PRIMARY_KEY_MISSING
  {
    KeyAsString(doc, ctx.primaryKeyFieldName, PRIMARY_KEY_MISSING)
  }

  /** `extractPartitioningKeyAsString`: the same for the partitioning key. */
  function ExtractPartitioningKeyAsString(ctx: UserStoreContext, doc: Document): (r: Result<string, Thrown>)
    ensures r.Ok? <==> ctx.partitioningKeyFieldName in doc && (doc[ctx.partitioningKeyFieldName].StringValue? || doc[ctx.partitioningKeyFieldName].BytesValue?)
    ensures r.Err? ==> r.error.IllegalArgument?
    ensures ctx.partitioningKeyFieldName !in doc ==> r.error.message == PARTITIONING_KEY_MISSING
  {
    KeyAsString(doc, ctx.partitioningKeyFieldName, PARTITIONING_KEY_MISSING)
  }

  /** The extraction reads only the key's own field: other fields do not matter. */
  lemma ExtractionReadsOnlyKey(ctx: UserStoreContext, doc: Document, other: string, v: FieldValue)
    requires other != ctx.primaryKeyFieldName
    ensures ExtractPrimaryKeyAsString(ctx, doc[other := v]) == ExtractPrimaryKeyAsString(ctx, doc)
  {
  }
}
