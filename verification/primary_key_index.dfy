/**
 * The prototype primary-key index: a table from key to a vector of value
 * offsets (indexed by field id), a memory-mapped value region, and an index
 * file that records every offset written.
 *
 * The memory map and the index file are byte sequences; their flushes and
 * the I/O errors those can raise are not modelled.
 */
module PkIndex {
  import opened Wrappers
  import opened ByteCodec
  import opened SchemaField
  import CkvSegment

  type Key = Bytes

  /** Key to offsets by field id; `CkvSegment.SENTINEL` (`usize::MAX`) marks an empty slot. */
  type OffsetTable = map<Key, seq<nat>>

  /** The validation errors of `upsert`, in the order they are checked. */
  datatype UpsertError = EmptyKey | EmptyValue | ValueTooLarge

  /** The key's offset vector, empty for a key not yet in the table (`or_default`). */
  function Lookup(index: OffsetTable, key: Key): seq<nat>
  {
    if key in index then index[key] else []
  }

  /** `resize(field_id + 1, usize::MAX)` when the vector is too short for the field id. */
  function Grown(offsets: seq<nat>, fieldId: nat): (r: seq<nat>)
    ensures fieldId < |r| && |r| == if fieldId < |offsets| then |offsets| else fieldId + 1
    ensures forall j :: 0 <= j < |r| ==> r[j] == if j < |offsets| then offsets[j] else CkvSegment.SENTINEL
  {
    if fieldId >= |offsets| then offsets + seq(fieldId + 1 - |offsets|, _ => CkvSegment.SENTINEL) else offsets
  }

  /** The bytes an upsert stores for a value: the value itself at a fixed width, else a u32 LE length first. */
  function Payload(field: Field, value: Bytes): Bytes
  {
    if ValueLen(field).Some? then value else U32Le(|value|) + value
  }

  /** A value of the field's fixed width, or any value when the field has none. */
  predicate WidthMatches(field: Field, value: Bytes)
  {
    ValueLen(field).Some? ==> |value| == ValueLen(field).value
  }

  /** `copy_from_slice` into `m[at..at + |data|]`: those bytes become `data`, no others change. */
  function Splice(m: Bytes, at: nat, data: Bytes): (r: Bytes)
    requires at + |data| <= |m|
    ensures |r| == |m|
    ensures r[..at] == m[..at] && r[at..at + |data|] == data && r[at + |data|..] == m[at + |data|..]
  {
    m[..at] + data + m[at + |data|..]
  }

  /**
   * `read`: None for an unknown key, a field id past the vector or an empty
   * slot; otherwise the bytes at the stored offset, `value_len` of them at a
   * fixed width, else as many as the u32 LE length found there says. A range
   * past the end of the map panics.
   */
  function Read(index: OffsetTable, mmap: Bytes, key: Key, field: Field): (r: Outcome<Option<Bytes>>)
    ensures r == Returned(None) <==>
      key !in index || field.id >= |index[key]| || index[key][field.id] == CkvSegment.SENTINEL
    ensures r.Returned? && r.value.Some? && ValueLen(field).Some? ==>
      var off := index[key][field.id];
      var v := r.value.value;
      |v| == ValueLen(field).value && off + |v| <= |mmap| && mmap[off..off + |v|] == v
    ensures r.Returned? && r.value.Some? && ValueLen(field).None? ==>
      var off := index[key][field.id];
      var v := r.value.value;
      off + 4 + |v| <= |mmap| && U32FromLe(mmap[off..off + 4]) == |v| && mmap[off + 4..off + 4 + |v|] == v
  {
    if key !in index || field.id >= |index[key]| then Returned(None)
    else
      var off := index[key][field.id];
      if off == CkvSegment.SENTINEL then Returned(None)
      else match ValueLen(field)
        case Some(n) =>
          if off + n <= |mmap| then Returned(Some(mmap[off..off + n])) else Panicked
        case None =>
          if off + 4 > |mmap| then Panicked
          else
            var len := U32FromLe(mmap[off..off + 4]);
            if off + 4 + len <= |mmap| then
              Returned(Some(mmap[off + 4..off + 4 + len]))
            else Panicked
  }

  /** One index-file record: `[u32 LE key length][key][u32 LE field id][u32 LE offset]`, lengths cast to 32 bits. */
  function IndexRecord(key: Key, fieldId: nat, writeOffset: nat): Bytes
  {
    U32Le(|key|) + key + U32Le(fieldId) + U32Le(writeOffset)
  }

  /** Reads one index-file record back: key, field id, offset and the bytes it took. */
  function ParseIndexRecord(b: Bytes): (r: Option<(Key, nat, nat, nat)>)
    ensures r.Some? ==> r.value.3 == 12 + |r.value.0| <= |b|
  {
    if |b| < 4 then None
    else
      var n := U32FromLe(b[..4]);
      if |b| < 12 + n then None
      else Some((b[4..4 + n], U32FromLe(b[4 + n..8 + n]), U32FromLe(b[8 + n..12 + n]), 12 + n))
  }

  /**
   * A record reads back as written, whatever follows it, with the offset
   * reduced to its low 32 bits by the cast.
   */
  lemma ParseIndexRecordRoundTrip(key: Key, fieldId: nat, writeOffset: nat, rest: Bytes)
    requires |key| <= U32_MAX && fieldId <= U32_MAX
    ensures ParseIndexRecord(IndexRecord(key, fieldId, writeOffset) + rest)
         == Some((key, fieldId, writeOffset % TWO_32, 12 + |key|))
  {
    var b := IndexRecord(key, fieldId, writeOffset) + rest;
    var n := |key|;
    RecordLayout(U32Le(n), key, U32Le(fieldId), U32Le(writeOffset), rest);
    assert n % TWO_32 == n && fieldId % TWO_32 == fieldId;
  }

  /** The four parts of a record and what follows it, found again at their offsets. */
  lemma RecordLayout(len: Bytes, key: Bytes, id: Bytes, off: Bytes, rest: Bytes)
    requires |len| == 4 && |id| == 4 && |off| == 4
    ensures var b := len + key + id + off + rest;
      && |b| >= 12 + |key|
      && b[..4] == len && b[4..4 + |key|] == key
      && b[4 + |key|..8 + |key|] == id && b[8 + |key|..12 + |key|] == off
  {
    var b := len + key + id + off + rest;
    var n := |key|;
    assert b[..4] == len;
    assert b[4..4 + n] == key;
    assert b[4 + n..8 + n] == id;
    assert b[8 + n..12 + n] == off;
  }

  /** The offset table once slot `fieldId` of `key` holds `off`, the vector grown first. */
  function StoredAt(index: OffsetTable, key: Key, fieldId: nat, off: nat): OffsetTable
  {
    index[key := Grown(Lookup(index, key), fieldId)[fieldId := off]]
  }

  /** A value appended at the end of the map reads back unchanged. */
  lemma ReadAfterAppend(index: OffsetTable, mmap: Bytes, key: Key, field: Field, value: Bytes)
    requires |mmap| < CkvSegment.SENTINEL
    requires |value| <= U32_MAX && WidthMatches(field, value)
    ensures Read(StoredAt(index, key, field.id, |mmap|), mmap + Payload(field, value), key, field)
         == Returned(Some(value))
  {
    var m := mmap + Payload(field, value);
    var off := |mmap|;
    var stored := StoredAt(index, key, field.id, off);
    assert key in stored && field.id < |stored[key]| && stored[key][field.id] == off;
    if ValueLen(field).Some? {
      assert m[off..off + |value|] == value;
    } else {
      assert U32FromLe(m[off..off + 4]) == |value| by {
        assert m[off..off + 4] == U32Le(|value|);
        assert |value| % TWO_32 == |value|;
      }
      assert m[off + 4..off + 4 + |value|] == value;
    }
  }

  /**
   * Other slots read as before once a value is appended: the map only grows,
   * and slots the vector grows by hold the sentinel.
   */
  lemma ReadOthersAfterAppend(index: OffsetTable, mmap: Bytes, key: Key, field: Field, value: Bytes,
                              k: Key, f: Field)
    requires k != key || f.id != field.id
    requires Read(index, mmap, k, f).Returned?
    ensures Read(StoredAt(index, key, field.id, |mmap|), mmap + Payload(field, value), k, f)
         == Read(index, mmap, k, f)
  {
    var index' := StoredAt(index, key, field.id, |mmap|);
    var m := mmap + Payload(field, value);
    if k in index && f.id < |index[k]| {
      var off := index[k][f.id];
      assert index'[k][f.id] == off;
      if off != CkvSegment.SENTINEL {
        match ValueLen(f) {
          case Some(n) =>
            assert m[off..off + n] == mmap[off..off + n];
          case None =>
            assert m[off..off + 4] == mmap[off..off + 4];
            var len := U32FromLe(mmap[off..off + 4]);
            assert m[off + 4..off + 4 + len] == mmap[off + 4..off + 4 + len];
        }
      }
    }
  }

  /** `ReadOthersAfterAppend` for every other key and field at once. */
  lemma ReadAllOthersAfterAppend(index: OffsetTable, mmap: Bytes, key: Key, field: Field, value: Bytes)
    ensures forall k: Key, f: Field | (k != key || f.id != field.id) && Read(index, mmap, k, f).Returned? ::
      Read(StoredAt(index, key, field.id, |mmap|), mmap + Payload(field, value), k, f) == Read(index, mmap, k, f)
  {
    forall k: Key, f: Field | (k != key || f.id != field.id) && Read(index, mmap, k, f).Returned?
      ensures Read(StoredAt(index, key, field.id, |mmap|), mmap + Payload(field, value), k, f) == Read(index, mmap, k, f)
    {
      ReadOthersAfterAppend(index, mmap, key, field, value, k, f);
    }
  }

  /** Validation of `upsert`: empty key, then empty value, then a value over `u32::MAX` bytes. */
  function Check(key: Key, value: Bytes): (r: Option<UpsertError>)
    ensures r.None? <==> key != [] && 0 < |value| <= U32_MAX
    ensures r == Some(EmptyKey) <==> key == []
    ensures r == Some(EmptyValue) <==> key != [] && value == []
  {
    if |key| == 0 then Some(EmptyKey)
    else if |value| == 0 then Some(EmptyValue)
    else if |value| > U32_MAX then Some(ValueTooLarge)
    else None
  }

  /** `PrimaryKeyIndex`. */
  class PrimaryKeyIndex {
    var index: OffsetTable
    var mmap: Bytes
    var indexFile: Bytes

    /** `new`: both files are truncated, so everything starts empty. */
    constructor New()
      ensures index == map[] && mmap == [] && indexFile == []
    {
      index := map[];
      mmap := [];
      indexFile := [];
    }

    /** `open`: the files are reopened as they are, but the table starts empty; the index file is not read. */
    constructor Open(mapped: Bytes, persisted: Bytes)
      ensures index == map[] && mmap == mapped && indexFile == persisted
    {
      index := map[];
      mmap := mapped;
      indexFile := persisted;
    }

    /** `entry(key).or_default()` and the resize: the key's vector reaches slot `fieldId`. */
    method GrowSlot(key: Key, fieldId: nat)
      modifies this
      ensures index == old(index)[key := Grown(Lookup(old(index), key), fieldId)]
      ensures mmap == old(mmap) && indexFile == old(indexFile)
    {
      var offsets := Lookup(index, key);
      if fieldId >= |offsets| {
        offsets := offsets + seq(fieldId + 1 - |offsets|, _ => CkvSegment.SENTINEL);
      }
      index := index[key := offsets];
    }

    /**
     * The write half of `upsert` at a given write offset: the payload is
     * copied into the map (the length first for a variable width), the slot
     * takes the offset and the record is appended to the index file. A copy
     * whose range passes the end of the map panics, leaving the table and the
     * index file as they were.
     */
    method WriteValue(key: Key, field: Field, value: Bytes, writeOffset: nat)
      returns (r: Outcome<Result<(), UpsertError>>)
      requires key in index && field.id < |index[key]|
      modifies this
      ensures r.Panicked? <==> writeOffset + |Payload(field, value)| > |old(mmap)|
      ensures r.Panicked? ==> index == old(index) && indexFile == old(indexFile)
      ensures writeOffset + (if ValueLen(field).Some? then |value| else 4) > |old(mmap)| ==> mmap == old(mmap)
      ensures r.Returned? ==>
        && r.value == Ok(())
        && mmap == Splice(old(mmap), writeOffset, Payload(field, value))
        && index == StoredAt(old(index), key, field.id, writeOffset)
        && indexFile == old(indexFile) + IndexRecord(key, field.id, writeOffset)
    {
      match ValueLen(field) {
        case Some(_) =>
          if writeOffset + |value| > |mmap| {
            return Panicked;
          }
          mmap := Splice(mmap, writeOffset, value);
        case None =>
          var lenBytes := U32Le(|value|);
          if writeOffset + 4 > |mmap| {
            return Panicked;
          }
          mmap := Splice(mmap, writeOffset, lenBytes);
          if writeOffset + 4 + |value| > |mmap| {
            return Panicked;
          }
          mmap := Splice(mmap, writeOffset + 4, value);
          SpliceTwice(old(mmap), writeOffset, lenBytes, value);
      }
      var offsets: seq<nat> := index[key][field.id := writeOffset];
      index := index[key := offsets];
      indexFile := indexFile + IndexRecord(key, field.id, writeOffset);
      return Returned(Ok(()));
    }

    /**
     * `upsert` as written: after validation and the resize, the write offset
     * is the current length of the map, which is never grown, so the first
     * copy always runs past its end and panics. The key's vector has by then
     * been created and grown; nothing else changes.
     */
    method Upsert(key: Key, field: Field, value: Bytes) returns (r: Outcome<Result<(), UpsertError>>)
      modifies this
      ensures Check(key, value).Some? ==> r == Returned(Err(Check(key, value).value)) && unchanged(this)
      ensures Check(key, value).None? ==>
        && r == Panicked
        && index == old(index)[key := Grown(Lookup(old(index), key), field.id)]
        && mmap == old(mmap) && indexFile == old(indexFile)
    {
      var err := Check(key, value);
      if err.Some? {
        return Returned(Err(err.value));
      }
      GrowSlot(key, field.id);
      var writeOffset := |mmap|;
      r := WriteValue(key, field, value, writeOffset);
    }

    /**
     * `upsert` with the map grown by the payload before the copy, so the
     * value is appended at the old end of the map. It then reads back as
     * written, and every other slot reads as before.
     */
    method UpsertAppending(key: Key, field: Field, value: Bytes) returns (r: Result<(), UpsertError>)
      requires |mmap| < CkvSegment.SENTINEL
      modifies this
      ensures Check(key, value).Some? ==> r == Err(Check(key, value).value) && unchanged(this)
      ensures Check(key, value).None? ==>
        && r == Ok(())
        && mmap == old(mmap) + Payload(field, value)
        && index == StoredAt(old(index), key, field.id, |old(mmap)|)
        && indexFile == old(indexFile) + IndexRecord(key, field.id, |old(mmap)|)
      ensures Check(key, value).None? && WidthMatches(field, value) ==>
        Read(index, mmap, key, field) == Returned(Some(value))
      ensures forall k: Key, f: Field | (k != key || f.id != field.id) && Read(old(index), old(mmap), k, f).Returned? ::
        Read(index, mmap, k, f) == Read(old(index), old(mmap), k, f)
    {
      var err := Check(key, value);
      if err.Some? {
        return Err(err.value);
      }
      GrowSlot(key, field.id);
      var writeOffset := |mmap|;
      var payload := Payload(field, value);
      mmap := mmap + seq(|payload|, _ => 0);
      var w := WriteValue(key, field, value, writeOffset);
      r := w.value;
      assert mmap == old(mmap) + payload;
      if WidthMatches(field, value) {
        ReadAfterAppend(old(index), old(mmap), key, field, value);
      }
      ReadAllOthersAfterAppend(old(index), old(mmap), key, field, value);
    }
  }

  /** Two adjacent copies are one copy of their concatenation. */
  lemma SpliceTwice(m: Bytes, at: nat, a: Bytes, b: Bytes)
    requires at + |a| + |b| <= |m|
    ensures Splice(Splice(m, at, a), at + |a|, b) == Splice(m, at, a + b)
  {
    var x := Splice(Splice(m, at, a), at + |a|, b);
    var y := Splice(m, at, a + b);
    assert x[..at] == y[..at];
    assert x[at..at + |a| + |b|] == a + b == y[at..at + |a| + |b|];
    assert x == x[..at] + x[at..at + |a| + |b|] + x[at + |a| + |b|..];
    assert y == y[..at] + y[at..at + |a| + |b|] + y[at + |a| + |b|..];
  }
}
