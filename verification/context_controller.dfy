/**
 * The store-metadata table and the registration of a new field's schema in
 * a store record: a compare-and-swap loop that reads the record, appends the
 * new field with the record's schema version as its id, and writes back on
 * the condition that the version has not moved, for a bounded number of
 * attempts.
 */
module ContextController {
  import opened Wrappers
  import opened JavaExceptions
  import opened ByteCodec
  import opened GatewayTypes
  import opened StoreContext
  import CkvSegment

  /** Attempts of the compare-and-swap before giving up. */
  const MAX_ATTEMPTS: nat := 5

  const UNKNOWN_TYPE_MESSAGE := "Cannot add field with unknown type"
  const UNPARSEABLE_MESSAGE := "Cannot deserialize existing schema. Error: "

  /** The table's key: account id (partition key) and store name (sort key). */
  type TableKey = (string, string)

  /**
   * The wire codec of a field schema as the protocol library provides it:
   * parsing may fail on malformed bytes.
   */
  datatype SchemaCodec = SchemaCodec(parse: Bytes -> Option<FieldSchema>, serialize: FieldSchema -> Bytes)

  /** The codec reads back what it writes. */
  ghost predicate RoundTrips(codec: SchemaCodec)
  {
    forall f: FieldSchema {:trigger codec.serialize(f)} :: codec.parse(codec.serialize(f)) == Some(f)
  }

  /**
   * The scan of the stored schema entries for `name`, in order: an entry
   * that does not parse is an IllegalStateException, the first entry with
   * the name ends the scan with true, and reaching the end gives false.
   */
  function Scan(entries: seq<Bytes>, parse: Bytes -> Option<FieldSchema>, name: string): (r: Result<bool, Thrown>)
    ensures r.Err? ==> r.error == IllegalState(UNPARSEABLE_MESSAGE)
    decreases |entries|
  {
    if entries == [] then Ok(false)
    else
      match parse(entries[0])
      case None => Err(IllegalState(UNPARSEABLE_MESSAGE))
      case Some(f) => if f.name == name then Ok(true) else Scan(entries[1..], parse, name)
  }

  /** The scan finds nothing exactly when every entry parses and none has the name. */
  lemma {:induction false} ScanAbsent(entries: seq<Bytes>, parse: Bytes -> Option<FieldSchema>, name: string)
    ensures Scan(entries, parse, name) == Ok(false) <==>
      forall i :: 0 <= i < |entries| ==> parse(entries[i]).Some? && parse(entries[i]).value.name != name
    decreases |entries|
  {
    if entries != [] {
      ScanAbsent(entries[1..], parse, name);
      assert forall i :: 1 <= i < |entries| ==> entries[i] == entries[1..][i - 1];
    }
  }

  /** Appending an entry that parses to a schema named `name` after a list lacking it makes the scan find it. */
  lemma {:induction false} ScanFindsAppended(entries: seq<Bytes>, e: Bytes, parse: Bytes -> Option<FieldSchema>, name: string)
    requires Scan(entries, parse, name) == Ok(false)
    requires parse(e).Some? && parse(e).value.name == name
    ensures Scan(entries + [e], parse, name) == Ok(true)
    decreases |entries|
  {
    if entries != [] {
      assert (entries + [e])[1..] == entries[1..] + [e];
      ScanFindsAppended(entries[1..], e, parse, name);
    }
  }

  /**
   * The record after registering `field`: its entry, with the record's
   * version as its id, is appended and the version goes up by one.
   */
  function WithField(rec: StoreRecord, field: FieldSchema, serialize: FieldSchema -> Bytes): StoreRecord
    requires rec.fieldSchema.Some? && rec.fieldSchemaVersion.Some?
  {
    var version := rec.fieldSchemaVersion.value;
    rec.(fieldSchema := Some(rec.fieldSchema.value + [serialize(FieldSchema(field.name, version, field.fieldType))]),
         fieldSchemaVersion := Some(version + 1))
  }

  /**
   * A registration adds exactly one entry, carrying the field's name and type
   * with the old version as id, raises the version by exactly one, touches no
   * other field of the record, and makes a repeated registration of the same
   * name find it.
   */
  lemma WithFieldRegisters(rec: StoreRecord, field: FieldSchema, codec: SchemaCodec)
    requires RoundTrips(codec)
    requires rec.fieldSchema.Some? && rec.fieldSchemaVersion.Some?
    requires Scan(rec.fieldSchema.value, codec.parse, field.name) == Ok(false)
    ensures var after := WithField(rec, field, codec.serialize);
      && after.fieldSchema.Some? && after.fieldSchemaVersion == Some(rec.fieldSchemaVersion.value + 1)
      && |after.fieldSchema.value| == |rec.fieldSchema.value| + 1
      && after.fieldSchema.value[..|rec.fieldSchema.value|] == rec.fieldSchema.value
      && codec.parse(after.fieldSchema.value[|rec.fieldSchema.value|]) == Some(FieldSchema(field.name, rec.fieldSchemaVersion.value, field.fieldType))
      && after.(fieldSchema := rec.fieldSchema, fieldSchemaVersion := rec.fieldSchemaVersion) == rec
      && Scan(after.fieldSchema.value, codec.parse, field.name) == Ok(true)
  {
    var entry := codec.serialize(FieldSchema(field.name, rec.fieldSchemaVersion.value, field.fieldType));
    assert codec.parse(entry) == Some(FieldSchema(field.name, rec.fieldSchemaVersion.value, field.fieldType));
    ScanFindsAppended(rec.fieldSchema.value, entry, codec.parse, field.name);
  }

  /**
   * The store-metadata table. Other gateways write to it too: a conditional
   * write is evaluated against whatever the table holds by then.
   */
  class MetadataTable {
    var items: map<TableKey, StoreRecord>

    constructor(items: map<TableKey, StoreRecord>)
      ensures this.items == items
    {
      this.items := items;
    }

    /** `getItem`: null arguments throw NullPointerException; otherwise the record, if any. */
    function GetItem(accountId: Option<string>, storeName: Option<string>): (r: Result<Option<StoreRecord>, Thrown>)
      reads this
      ensures r.Err? <==> accountId.None? || storeName.None?
      ensures r.Err? ==> r.error == NullPointer
      ensures r.Ok? ==> (r.value.Some? <==> (accountId.value, storeName.value) in items)
      ensures r.Ok? && r.value.Some? ==> r.value.value == items[(accountId.value, storeName.value)]
    {
      if accountId.None? || storeName.None? then Err(NullPointer)
      else if (accountId.value, storeName.value) in items then Ok(Some(items[(accountId.value, storeName.value)]))
      else Ok(None)
    }

    /**
     * The conditional `updateItem`: `item` is written under `key` only when
     * the stored record's version equals `expectedVersion`, else the write
     * is refused (ConditionalCheckFailedException). `seen` is the table as
     * the condition was evaluated, after other writers.
     */
    method UpdateItem(key: TableKey, item: StoreRecord, expectedVersion: int) returns (applied: bool, ghost seen: map<TableKey, StoreRecord>)
      modifies this
      ensures applied <==> key in seen && seen[key].fieldSchemaVersion == Some(expectedVersion)
      ensures items == if applied then seen[key := item] else seen
    {
      var current: map<TableKey, StoreRecord> := *;
      seen := current;
      applied := key in current && current[key].fieldSchemaVersion == Some(expectedVersion);
      items := if applied then current[key := item] else current;
    }
  }

  /** The registry of field schemas, over one table and the schema codec. */
  class Controller {
    const table: MetadataTable
    const codec: SchemaCodec

    constructor(table: MetadataTable, codec: SchemaCodec)
      ensures this.table == table && this.codec == codec
    {
      this.table := table;
      this.codec := codec;
    }

    /**
     * `putItem`: a null record throws NullPointerException; otherwise it is
     * stored under its account id and store name, replacing any record
     * there. A record missing either key attribute is refused by the table,
     * an unchecked exception, and nothing is written.
     */
    method PutItem(ikvStoreContext: Option<StoreRecord>) returns (r: Option<Thrown>)
      modifies table
      ensures ikvStoreContext.None? ==> r == Some(NullPointer) && table.items == old(table.items)
      ensures ikvStoreContext.Some? && (ikvStoreContext.value.accountId.None? || ikvStoreContext.value.storeName.None?) ==>
        r == Some(Runtime) && table.items == old(table.items)
      ensures ikvStoreContext.Some? && ikvStoreContext.value.accountId.Some? && ikvStoreContext.value.storeName.Some? ==>
        var rec := ikvStoreContext.value;
        r.None? && table.items == old(table.items)[(rec.accountId.value, rec.storeName.value) := rec]
        && table.GetItem(rec.accountId, rec.storeName) == Ok(Some(rec))
    {
      if ikvStoreContext.None? {
        return Some(NullPointer);
      }
      var rec := ikvStoreContext.value;
      if rec.accountId.None? || rec.storeName.None? {
        return Some(Runtime);
      }
      table.items := table.items[(rec.accountId.value, rec.storeName.value) := rec];
      return None;
    }

    /** The scan loop over the stored entries. */
    method FindExisting(entries: seq<Bytes>, name: string) returns (r: Result<bool, Thrown>)
      ensures r == Scan(entries, codec.parse, name)
    {
      var i := 0;
      while i < |entries|
        invariant i <= |entries|
        invariant Scan(entries, codec.parse, name) == Scan(entries[i..], codec.parse, name)
      {
        assert entries[i..][1..] == entries[i + 1..];
        var parsed := codec.parse(entries[i]);
        if parsed.None? {
          return Err(IllegalState(UNPARSEABLE_MESSAGE));
        }
        if parsed.value.name == name {
          return Ok(true);
        }
        i := i + 1;
      }
      return Ok(false);
    }

    /**
     * `registerSchemaForNewField`. Null arguments throw NullPointerException
     * and an UNKNOWN type IllegalArgumentException, before any read. Each
     * attempt reads the record (a missing record, schema list or version
     * throws NullPointerException), returns false when a stored entry has
     * the name (types are not compared), and otherwise writes the record
     * with the field appended, conditional on the version it read; a
     * refused write starts the next attempt, and after `MAX_ATTEMPTS`
     * refusals the answer is false. `attempts` counts the reads and
     * `before` is the record the last attempt read.
     */
    method RegisterSchemaForNewField(accountId: Option<string>, storeName: Option<string>, field: Option<FieldSchema>)
      returns (r: Result<bool, Thrown>, ghost attempts: nat, ghost before: StoreRecord)
      modifies table
      ensures accountId.None? || storeName.None? || field.None? ==> r == Err(NullPointer) && attempts == 0
      ensures accountId.Some? && storeName.Some? && field.Some? && field.value.fieldType == CkvSegment.UNKNOWN ==>
        r == Err(IllegalArgument(UNKNOWN_TYPE_MESSAGE)) && attempts == 0
      ensures attempts <= MAX_ATTEMPTS
      ensures attempts == 0 ==> table.items == old(table.items)
      ensures r.Err? ==> r.error in {NullPointer, IllegalState(UNPARSEABLE_MESSAGE), IllegalArgument(UNKNOWN_TYPE_MESSAGE)}
      ensures r == Ok(true) ==>
        && attempts >= 1 && accountId.Some? && storeName.Some? && field.Some?
        && before.fieldSchema.Some? && before.fieldSchemaVersion.Some?
        && Scan(before.fieldSchema.value, codec.parse, field.value.name) == Ok(false)
        && (accountId.value, storeName.value) in table.items
        && table.items[(accountId.value, storeName.value)] == WithField(before, field.value, codec.serialize)
      ensures r == Ok(false) ==>
        || attempts == MAX_ATTEMPTS
        || (before.fieldSchema.Some? && Scan(before.fieldSchema.value, codec.parse, field.value.name) == Ok(true))
    {
      attempts := 0;
      before := StoreRecord(None, None, None, None, None, None, None, None, None);
      if accountId.None? || storeName.None? || field.None? {
        return Err(NullPointer), attempts, before;
      }
      var f := field.value;
      if f.fieldType == CkvSegment.UNKNOWN {
        return Err(IllegalArgument(UNKNOWN_TYPE_MESSAGE)), attempts, before;
      }
      var key := (accountId.value, storeName.value);
      var retry := 0;
      while retry < MAX_ATTEMPTS
        invariant retry == attempts <= MAX_ATTEMPTS
        invariant attempts == 0 ==> table.items == old(table.items)
      {
        attempts := attempts + 1;
        var item := table.GetItem(accountId, storeName);
        if item.value.None? {
          return Err(NullPointer), attempts, before;
        }
        var rec := item.value.value;
        before := rec;
        if rec.fieldSchema.None? {
          return Err(NullPointer), attempts, before;
        }
        var found := FindExisting(rec.fieldSchema.value, f.name);
        if found.Err? {
          return Err(found.error), attempts, before;
        }
        if found.value {
          return Ok(false), attempts, before;
        }
        if rec.fieldSchemaVersion.None? {
          return Err(NullPointer), attempts, before;
        }
        var version := rec.fieldSchemaVersion.value;
        var entry := codec.serialize(FieldSchema(f.name, version, f.fieldType));
        var updated := rec.(fieldSchema := Some(rec.fieldSchema.value + [entry]), fieldSchemaVersion := Some(version + 1));
        var applied;
        ghost var seen;
        applied, seen := table.UpdateItem(key, updated, version);
        if applied {
          return Ok(true), attempts, before;
        }
        retry := retry + 1;
      }
      return Ok(false), attempts, before;
    }
  }
}
