/**
 * One segment of the columnar key-value index: a table from primary key to
 * a vector of offsets into a byte region (the memory map), and the log of
 * offset-table updates that reopening replays.
 *
 * Each stored value is a two-byte little-endian type tag followed by a
 * fixed 4/8/1-byte payload, or by a varint length and that many bytes.
 */
module CkvSegment {
  import opened Wrappers
  import opened ByteCodec

  /** `usize::MAX`, the offset of a slot that holds no value. */
  const SENTINEL: nat := 0xFFFF_FFFF_FFFF_FFFF
  /** Growth step of the memory map, 8 MiB. */
  const CHUNK_SIZE: nat := 8 * 1024 * 1024

  type I32 = x: int | I32_MIN <= x <= I32_MAX

  datatype FieldType = UNKNOWN | INT32 | INT64 | FLOAT32 | FLOAT64 | BOOLEAN | STRING | BYTES

  /** Wire tag of each field type. */
  function Tag(t: FieldType): nat
  {
    match t
    case UNKNOWN => 0
    case INT32 => 1
    case INT64 => 2
    case FLOAT32 => 3
    case FLOAT64 => 4
    case BOOLEAN => 5
    case STRING => 6
    case BYTES => 7
  }

  /** `FieldType::from_i32`: None for a tag no field type carries. */
  function FromTag(tag: int): (r: Option<FieldType>)
    ensures r.Some? <==> 0 <= tag <= 7
    ensures r.Some? ==> Tag(r.value) == tag
  {
    if tag == 0 then Some(UNKNOWN)
    else if tag == 1 then Some(INT32)
    else if tag == 2 then Some(INT64)
    else if tag == 3 then Some(FLOAT32)
    else if tag == 4 then Some(FLOAT64)
    else if tag == 5 then Some(BOOLEAN)
    else if tag == 6 then Some(STRING)
    else if tag == 7 then Some(BYTES)
    else None
  }

  lemma FromTagOfTag(t: FieldType)
    ensures FromTag(Tag(t)) == Some(t)
  {
  }

  /** A field value as it arrives: the raw i32 type tag and the value bytes. */
  datatype FieldValue = FieldValue(fieldType: I32, value: Bytes)

  /** `enum_value_or_default`: an unrecognised tag counts as UNKNOWN. */
  function Kind(v: FieldValue): FieldType
  {
    FromTag(v.fieldType).GetOr(UNKNOWN)
  }

  predicate IsVariable(t: FieldType) { t == STRING || t == BYTES }

  predicate IsFixed(t: FieldType) { t != UNKNOWN && !IsVariable(t) }

  /** Payload width of a fixed-width type. */
  function PayloadWidth(t: FieldType): nat
  {
    match t
    case INT32 | FLOAT32 => 4
    case INT64 | FLOAT64 => 8
    case BOOLEAN => 1
    case _ => 0
  }

  /** `copy_from_slice` panics unless a fixed-width value has exactly its width. */
  predicate FitsFixedWidth(v: FieldValue)
  {
    IsFixed(Kind(v)) ==> |v.value| == PayloadWidth(Kind(v))
  }

  datatype SegmentError = TypeTagTooWide | ValueTooLarge

  /** The number of bytes an entry takes, by the rule of `size_of_mmap_entry`. */
  function EntrySize(v: FieldValue): nat
  {
    var t := Kind(v);
    2 + (if t == UNKNOWN then 0
         else if IsVariable(t) then VarintSpace(|v.value|) + |v.value|
         else PayloadWidth(t))
  }

  /** `size_of_mmap_entry`: fails for a tag beyond u16 and for a variable value beyond u32. */
  function SizeOfMmapEntry(v: FieldValue): (r: Result<nat, SegmentError>)
    ensures r.Err? <==> v.fieldType > U16_MAX || (IsVariable(Kind(v)) && |v.value| > U32_MAX)
    ensures r.Err? ==> r.error == (if v.fieldType > U16_MAX then TypeTagTooWide else ValueTooLarge)
    ensures r.Ok? ==> r.value >= 2
  {
    if v.fieldType > U16_MAX then Err(TypeTagTooWide)
    else if IsVariable(Kind(v)) && |v.value| > U32_MAX then Err(ValueTooLarge)
    else Ok(EntrySize(v))
  }

  /** The bytes `write_to_mmap` stores for a value; UNKNOWN stores only tag 0. */
  function EncodeEntry(v: FieldValue): (r: Bytes)
    requires v.fieldType <= U16_MAX
    ensures |r| >= 2
  {
    var t := Kind(v);
    if t == UNKNOWN then U16Le(0)
    else if IsVariable(t) then U16Le(v.fieldType) + Varint(|v.value| % TWO_32) + v.value
    else U16Le(v.fieldType) + v.value
  }

  lemma EncodeEntryLength(v: FieldValue)
    requires SizeOfMmapEntry(v).Ok? && FitsFixedWidth(v)
    ensures |EncodeEntry(v)| == EntrySize(v) == SizeOfMmapEntry(v).value
  {
    var n := |v.value|;
    if IsVariable(Kind(v)) {
      assert n % TWO_32 == n;
      VarintSpaceIsLength(n);
    }
  }

  /**
   * `write_to_mmap`: stores the entry at `off` and returns the new region
   * and the number of bytes written. The region must already hold them.
   */
  function WriteToMmap(mmap: Bytes, off: nat, v: FieldValue): (r: Result<(Bytes, nat), SegmentError>)
    requires FitsFixedWidth(v)
    requires v.fieldType <= U16_MAX ==> off + |EncodeEntry(v)| <= |mmap|
    ensures r.Err? <==> v.fieldType > U16_MAX
    ensures r.Ok? ==> |r.value.0| == |mmap| && r.value.1 == |EncodeEntry(v)|
    ensures r.Ok? ==> r.value.0[..off] == mmap[..off] && r.value.0[off + r.value.1..] == mmap[off + r.value.1..]
    ensures r.Ok? ==> r.value.0[off..off + r.value.1] == EncodeEntry(v)
  {
    if v.fieldType > U16_MAX then Err(TypeTagTooWide)
    else
      var e := EncodeEntry(v);
      Splice(mmap, off, off, e);
      Ok((mmap[..off] + e + mmap[off + |e|..], |e|))
  }

  /** An entry read back: its type, its payload and where it ends. */
  datatype Entry = Entry(fieldType: FieldType, payload: Bytes, end: nat)

  /**
   * The entry at `off`. The source panics when a slice runs past the
   * region; such offsets are never stored (see `OffsetsDecode`), and the
   * model answers None there.
   */
  function ReadEntry(m: Bytes, off: nat): (r: Option<Entry>)
    ensures r.Some? ==> off + 2 <= r.value.end <= |m| && off != SENTINEL
  {
    if off == SENTINEL || off + 2 > |m| then None
    else
      match FromTag(U16FromLe(m[off..off + 2]))
      case None => None
      case Some(t) =>
        if t == UNKNOWN then Some(Entry(UNKNOWN, [], off + 2))
        else if IsVariable(t) then
          match DecodeVarintU32(m[off + 2..])
          case None => None
          case Some(p) =>
            if off + 2 + p.1 + p.0 > |m| then None
            else Some(Entry(t, m[off + 2 + p.1..off + 2 + p.1 + p.0], off + 2 + p.1 + p.0))
        else if off + 2 + PayloadWidth(t) > |m| then None
        else Some(Entry(t, m[off + 2..off + 2 + PayloadWidth(t)], off + 2 + PayloadWidth(t)))
  }

  /** `read_from_mmap`: None for the sentinel and for an unrecognised tag. */
  function ReadFromMmap(m: Bytes, off: nat): (r: Option<(FieldType, Bytes)>)
    ensures off == SENTINEL ==> r.None?
    ensures r.Some? && r.value.0 == UNKNOWN ==> r.value.1 == []
    ensures r.Some? && IsFixed(r.value.0) ==> |r.value.1| == PayloadWidth(r.value.0)
  {
    match ReadEntry(m, off)
    case None => None
    case Some(e) => Some((e.fieldType, e.payload))
  }

  /** What a stored value reads back as: UNKNOWN gives an empty payload. */
  function Payload(v: FieldValue): Bytes
  {
    if Kind(v) == UNKNOWN then [] else v.value
  }

  /** Reading an entry depends only on the bytes up to its end. */
  lemma ReadEntryExtends(p: Bytes, m: Bytes, off: nat)
    requires ReadEntry(p, off).Some?
    requires |p| <= |m| && m[..|p|] == p
    ensures ReadEntry(m, off) == ReadEntry(p, off)
  {
    SliceOfPrefix(p, m, off, off + 2);
    var t := FromTag(U16FromLe(p[off..off + 2])).value;
    if IsVariable(t) {
      var d := DecodeVarintU32(p[off + 2..]).value;
      assert off + 2 + d.1 + d.0 <= |p|;
      SliceOfPrefix(p, m, off + 2, off + 2 + d.1);
      assert m[off + 2..][..d.1] == m[off + 2..off + 2 + d.1];
      assert p[off + 2..][..d.1] == p[off + 2..off + 2 + d.1];
      DecodeVarintPrefix(p[off + 2..], m[off + 2..]);
      SliceOfPrefix(p, m, off + 2 + d.1, off + 2 + d.1 + d.0);
    } else if t != UNKNOWN {
      SliceOfPrefix(p, m, off + 2, off + 2 + PayloadWidth(t));
    }
  }

  lemma SliceOfPrefix(p: Bytes, m: Bytes, a: nat, b: nat)
    requires |p| <= |m| && m[..|p|] == p && a <= b <= |p|
    ensures m[a..b] == p[a..b]
  {
    assert forall i :: a <= i < b ==> m[i] == m[..|p|][i];
  }

  /** Round trip: the entry `EncodeEntry` wrote reads back as the same type and value. */
  lemma ReadEntryOfEncoded(m: Bytes, off: nat, v: FieldValue)
    requires SizeOfMmapEntry(v).Ok? && FitsFixedWidth(v) && off != SENTINEL
    requires off + |EncodeEntry(v)| <= |m| && m[off..off + |EncodeEntry(v)|] == EncodeEntry(v)
    ensures ReadEntry(m, off) == Some(Entry(Kind(v), Payload(v), off + EntrySize(v)))
  {
    EncodeEntryLength(v);
    var t := Kind(v);
    if t == UNKNOWN {
      assert m[off..off + 2] == EncodeEntry(v)[..2];
      assert U16FromLe(EncodeEntry(v)[..2]) == 0;
    } else if IsVariable(t) {
      ReadVariableOfEncoded(m, off, v);
    } else {
      ReadFixedOfEncoded(m, off, v);
    }
  }

  /** The round trip of a string or bytes entry: its length prefix is decoded first. */
  lemma ReadVariableOfEncoded(m: Bytes, off: nat, v: FieldValue)
    requires SizeOfMmapEntry(v).Ok? && IsVariable(Kind(v)) && off != SENTINEL
    requires off + |EncodeEntry(v)| <= |m| && m[off..off + |EncodeEntry(v)|] == EncodeEntry(v)
    requires |EncodeEntry(v)| == EntrySize(v)
    ensures ReadEntry(m, off) == Some(Entry(Kind(v), Payload(v), off + EntrySize(v)))
  {
    VariableEntryParts(m, off, v);
  }

  /** The parts of an encoded string or bytes entry as `ReadEntry` takes them apart. */
  lemma VariableEntryParts(m: Bytes, off: nat, v: FieldValue)
    requires SizeOfMmapEntry(v).Ok? && IsVariable(Kind(v))
    requires off + |EncodeEntry(v)| <= |m| && m[off..off + |EncodeEntry(v)|] == EncodeEntry(v)
    ensures FromTag(U16FromLe(m[off..off + 2])) == Some(Kind(v))
    ensures DecodeVarintU32(m[off + 2..]) == Some((|v.value|, VarintSpace(|v.value|)))
    ensures off + 2 + VarintSpace(|v.value|) + |v.value| <= |m|
    ensures m[off + 2 + VarintSpace(|v.value|)..off + 2 + VarintSpace(|v.value|) + |v.value|] == v.value
  {
    var n := |v.value|;
    var vb := Varint(n);
    assert EncodeEntry(v) == U16Le(v.fieldType) + vb + v.value by {
      assert n % TWO_32 == n;
    }
    var rest := m[off + 2 + |vb| + n..];
    ThreePartsAt(m, off, U16Le(v.fieldType), vb, v.value);
    assert FromTag(v.fieldType) == Some(Kind(v));
    VarintRoundTrip(n, v.value + rest);
    VarintSpaceIsLength(n);
  }

  /** What was written at `off` as a header, a prefix and a body, read back part by part. */
  lemma ThreePartsAt(m: Bytes, off: nat, h: Bytes, p: Bytes, b: Bytes)
    requires off + |h + p + b| <= |m| && m[off..off + |h + p + b|] == h + p + b
    ensures m[off..off + |h|] == h
    ensures m[off + |h|..] == p + (b + m[off + |h| + |p| + |b|..])
    ensures m[off + |h| + |p|..off + |h| + |p| + |b|] == b
  {
    var e := h + p + b;
    assert m[off..off + |h|] == e[..|h|];
    assert m[off + |h|..] == e[|h|..] + m[off + |e|..] by {
      assert forall i :: off + |h| <= i < off + |e| ==> m[i] == m[off..off + |e|][i - off];
    }
    assert e[|h|..] == p + b;
    assert m[off + |h| + |p|..off + |h| + |p| + |b|] == e[|h| + |p|..];
  }

  /** The round trip of a fixed-width or boolean entry. */
  lemma ReadFixedOfEncoded(m: Bytes, off: nat, v: FieldValue)
    requires SizeOfMmapEntry(v).Ok? && FitsFixedWidth(v) && off != SENTINEL
    requires Kind(v) != UNKNOWN && !IsVariable(Kind(v))
    requires off + |EncodeEntry(v)| <= |m| && m[off..off + |EncodeEntry(v)|] == EncodeEntry(v)
    requires |EncodeEntry(v)| == EntrySize(v)
    ensures ReadEntry(m, off) == Some(Entry(Kind(v), Payload(v), off + EntrySize(v)))
  {
    var e := EncodeEntry(v);
    assert e == U16Le(v.fieldType) + v.value;
    assert m[off..off + 2] == e[..2] == U16Le(v.fieldType);
    assert FromTag(v.fieldType) == Some(Kind(v));
    assert m[off + 2..off + 2 + PayloadWidth(Kind(v))] == e[2..];
  }


  /** The write then read of one value, at the level of `write_to_mmap`/`read_from_mmap`. */
  lemma WriteThenRead(mmap: Bytes, off: nat, v: FieldValue)
    requires SizeOfMmapEntry(v).Ok? && FitsFixedWidth(v) && off != SENTINEL
    requires off + |EncodeEntry(v)| <= |mmap|
    ensures WriteToMmap(mmap, off, v).Ok?
    ensures ReadFromMmap(WriteToMmap(mmap, off, v).value.0, off) == Some((Kind(v), Payload(v)))
  {
    EncodeEntryLength(v);
    var m := WriteToMmap(mmap, off, v).value.0;
    var e := EncodeEntry(v);
    assert m[off..off + |e|] == e;
    ReadEntryOfEncoded(m, off, v);
  }

  // ------------------------------------------------------- offset vectors

  /** Store `o` in slot `fid`, first growing the vector with the sentinel. */
  function SetSlot(offs: seq<nat>, fid: nat, o: nat): (r: seq<nat>)
    ensures |r| == if fid < |offs| then |offs| else fid + 1
    ensures r[fid] == o
    ensures forall j :: 0 <= j < |r| && j != fid ==> r[j] == if j < |offs| then offs[j] else SENTINEL
  {
    (if fid < |offs| then offs else offs + seq(fid + 1 - |offs|, _ => SENTINEL))[fid := o]
  }

  /** Reset slot `fid` to the sentinel when it exists. */
  function ClearSlot(offs: seq<nat>, fid: nat): (r: seq<nat>)
  {
    if fid < |offs| then offs[fid := SENTINEL] else offs
  }

  /** The slots after storing `os[i]` at `ids[i]` for every i, in order. */
  function UpdateSlots(offs: seq<nat>, ids: seq<nat>, os: seq<nat>): seq<nat>
    requires |os| == |ids|
    decreases |ids|
  {
    if ids == [] then offs
    else SetSlot(UpdateSlots(offs, ids[..|ids| - 1], os[..|ids| - 1]), ids[|ids| - 1], os[|ids| - 1])
  }

  /** The slots after clearing each id of `ids`, in order. */
  function ClearSlots(offs: seq<nat>, ids: seq<nat>): seq<nat>
    decreases |ids|
  {
    if ids == [] then offs else ClearSlot(ClearSlots(offs, ids[..|ids| - 1]), ids[|ids| - 1])
  }

  /** One more than the largest id, 0 for none: the length an update grows the vector to. */
  function MaxPlusOne(ids: seq<nat>): (r: nat)
    ensures forall k :: 0 <= k < |ids| ==> ids[k] < r
    ensures r == 0 <==> ids == []
    ensures r > 0 ==> r - 1 in ids
    decreases |ids|
  {
    if ids == [] then 0
    else
      var m := MaxPlusOne(ids[..|ids| - 1]);
      if ids[|ids| - 1] + 1 > m then ids[|ids| - 1] + 1 else m
  }

  /** The index of the last occurrence of `ids[k]` is k. */
  predicate IsLastOccurrence(ids: seq<nat>, k: int)
  {
    0 <= k < |ids| && forall j :: k < j < |ids| ==> ids[j] != ids[k]
  }

  /** After an update the vector is long enough for every id and never shrinks. */
  lemma {:induction false} UpdateSlotsLength(offs: seq<nat>, ids: seq<nat>, os: seq<nat>)
    requires |os| == |ids|
    ensures |UpdateSlots(offs, ids, os)| == if |offs| >= MaxPlusOne(ids) then |offs| else MaxPlusOne(ids)
    decreases |ids|
  {
    if ids != [] {
      UpdateSlotsLength(offs, ids[..|ids| - 1], os[..|ids| - 1]);
    }
  }

  /** A written id holds the offset of its last occurrence in the update. */
  lemma {:induction false} UpdateSlotsWritten(offs: seq<nat>, ids: seq<nat>, os: seq<nat>, k: nat)
    requires |os| == |ids| && IsLastOccurrence(ids, k)
    ensures ids[k] < |UpdateSlots(offs, ids, os)| && UpdateSlots(offs, ids, os)[ids[k]] == os[k]
    decreases |ids|
  {
    var n := |ids| - 1;
    if k < n {
      assert IsLastOccurrence(ids[..n], k);
      UpdateSlotsWritten(offs, ids[..n], os[..n], k);
      assert ids[n] != ids[k];
    }
  }

  /** Every slot no id names keeps its old offset, and new slots hold the sentinel. */
  lemma {:induction false} UpdateSlotsUntouched(offs: seq<nat>, ids: seq<nat>, os: seq<nat>, j: nat)
    requires |os| == |ids| && j < |UpdateSlots(offs, ids, os)| && j !in ids
    ensures UpdateSlots(offs, ids, os)[j] == if j < |offs| then offs[j] else SENTINEL
    decreases |ids|
  {
    if ids != [] {
      var n := |ids| - 1;
      assert j !in ids[..n] && j != ids[n];
      var prev := UpdateSlots(offs, ids[..n], os[..n]);
      if j < |prev| {
        UpdateSlotsUntouched(offs, ids[..n], os[..n], j);
      } else {
        UpdateSlotsLength(offs, ids[..n], os[..n]);
      }
    }
  }

  /**
   * Clearing keeps the length; exactly the requested in-range slots become
   * the sentinel and every other slot keeps its offset.
   */
  lemma {:induction false} ClearSlotsSpec(offs: seq<nat>, ids: seq<nat>)
    ensures |ClearSlots(offs, ids)| == |offs|
    ensures forall j :: 0 <= j < |offs| ==> ClearSlots(offs, ids)[j] == if j in ids then SENTINEL else offs[j]
    decreases |ids|
  {
    if ids != [] {
      var n := |ids| - 1;
      ClearSlotsSpec(offs, ids[..n]);
      assert forall j :: j in ids <==> j in ids[..n] || j == ids[n];
    }
  }

  // ------------------------------------------------------------------ log

  /** One persisted offset-table update. */
  datatype LogEntry =
    | UpdateDocFields(primaryKey: Bytes, fieldIds: seq<nat>, offsets: seq<nat>)
    | DeleteDocFields(primaryKey: Bytes, fieldIds: seq<nat>)
    | DeleteDoc(primaryKey: Bytes)
    | NoOperation

  /** Replay indexes `offsets[i]` for every field id, so it needs at least as many. */
  predicate WellFormedLog(log: seq<LogEntry>)
  {
    forall i :: 0 <= i < |log| && log[i].UpdateDocFields? ==> |log[i].offsets| >= |log[i].fieldIds|
  }

  function Lookup(table: map<Bytes, seq<nat>>, pk: Bytes): seq<nat>
  {
    if pk in table then table[pk] else []
  }

  /** The effect of one log entry on the offset table. */
  function Apply(table: map<Bytes, seq<nat>>, e: LogEntry): map<Bytes, seq<nat>>
    requires e.UpdateDocFields? ==> |e.offsets| >= |e.fieldIds|
  {
    match e
    case UpdateDocFields(pk, ids, os) => table[pk := UpdateSlots(Lookup(table, pk), ids, os[..|ids|])]
    case DeleteDocFields(pk, ids) => if pk in table then table[pk := ClearSlots(table[pk], ids)] else table
    case DeleteDoc(pk) => table - {pk}
    case NoOperation => table
  }

  /** The offset table that replaying the whole log rebuilds, from empty. */
  function Replay(log: seq<LogEntry>): map<Bytes, seq<nat>>
    requires WellFormedLog(log)
    decreases |log|
  {
    if log == [] then map[] else Apply(Replay(log[..|log| - 1]), log[|log| - 1])
  }

  /** Every stored offset reads an entry that lies inside the written region. */
  ghost predicate OffsetsDecode(table: map<Bytes, seq<nat>>, m: Bytes, writeOffset: nat)
    requires writeOffset <= |m|
  {
    forall pk, j {:trigger ReadEntry(m[..writeOffset], table[pk][j])} ::
      pk in table && 0 <= j < |table[pk]| && table[pk][j] != SENTINEL ==>
        ReadEntry(m[..writeOffset], table[pk][j]).Some?
  }

  /** One offset slot in the size-prefixed output of `read_fields`. */
  function EncodeRead(r: Option<Bytes>): Bytes
  {
    match r
    case None => NONE_SIZE
    case Some(v) => I32Le(|v|) + v
  }

  // ------------------------------------------------------------ algorithms

  /** The clearing loop shared by field deletion and its replay. */
  method ClearSlotsLoop(offs: seq<nat>, ids: seq<nat>) returns (r: seq<nat>)
    ensures r == ClearSlots(offs, ids)
  {
    r := offs;
    var i := 0;
    while i < |ids|
      invariant i <= |ids|
      invariant r == ClearSlots(offs, ids[..i])
    {
      assert ids[..i + 1][..i] == ids[..i];
      if ids[i] < |r| {
        r := r[ids[i] := SENTINEL];
      }
      i := i + 1;
    }
    assert ids[..i] == ids;
  }

  /** The slot-setting loop of replay. */
  method UpdateSlotsLoop(offs: seq<nat>, ids: seq<nat>, os: seq<nat>) returns (r: seq<nat>)
    requires |os| >= |ids|
    ensures r == UpdateSlots(offs, ids, os[..|ids|])
  {
    r := offs;
    var i := 0;
    while i < |ids|
      invariant i <= |ids|
      invariant r == UpdateSlots(offs, ids[..i], os[..i])
    {
      assert ids[..i + 1][..i] == ids[..i];
      assert os[..i + 1][..i] == os[..i];
      if ids[i] >= |r| {
        r := r + seq(ids[i] + 1 - |r|, _ => SENTINEL);
      }
      r := r[ids[i] := os[i]];
      i := i + 1;
    }
    assert ids[..i] == ids;
  }

  /** The replay loop of `open_or_create`: rebuild the table entry by entry. */
  method ReplayLog(log: seq<LogEntry>) returns (table: map<Bytes, seq<nat>>)
    requires WellFormedLog(log)
    ensures table == Replay(log)
  {
    table := map[];
    var i := 0;
    while i < |log|
      invariant i <= |log|
      invariant WellFormedLog(log[..i])
      invariant table == Replay(log[..i])
    {
      assert log[..i + 1][..i] == log[..i];
      var e := log[i];
      match e {
        case UpdateDocFields(pk, ids, os) =>
          var offs := UpdateSlotsLoop(Lookup(table, pk), ids, os);
          table := table[pk := offs];
        case DeleteDocFields(pk, ids) =>
          if pk in table {
            var offs := ClearSlotsLoop(table[pk], ids);
            table := table[pk := offs];
          }
        case DeleteDoc(pk) =>
          table := table - {pk};
        case NoOperation =>
      }
      i := i + 1;
    }
    assert log[..i] == log;
  }

  // ------------------------------------------------------ batches of values

  predicate AllFit(vs: seq<FieldValue>)
  {
    forall i :: 0 <= i < |vs| ==> FitsFixedWidth(vs[i])
  }

  predicate AllSizesOk(vs: seq<FieldValue>)
  {
    forall i :: 0 <= i < |vs| ==> SizeOfMmapEntry(vs[i]).Ok?
  }

  /** The total the size loop of `upsert_document` adds up. */
  function SumSizes(vs: seq<FieldValue>): nat
    decreases |vs|
  {
    if vs == [] then 0 else SumSizes(vs[..|vs| - 1]) + EntrySize(vs[|vs| - 1])
  }

  lemma {:induction false} SumSizesPrefix(vs: seq<FieldValue>, i: nat)
    requires i <= |vs|
    ensures SumSizes(vs[..i]) <= SumSizes(vs)
    decreases |vs|
  {
    if i < |vs| {
      assert vs[..|vs| - 1][..i] == vs[..i];
      SumSizesPrefix(vs[..|vs| - 1], i);
    } else {
      assert vs[..i] == vs;
    }
  }

  /** Where each value of a batch starts when the batch is written from `start`. */
  function EntryOffsets(start: nat, vs: seq<FieldValue>): (r: seq<nat>)
    ensures |r| == |vs|
    decreases |vs|
  {
    if vs == [] then [] else EntryOffsets(start, vs[..|vs| - 1]) + [start + SumSizes(vs[..|vs| - 1])]
  }

  // ------------------------------------------------- the decoding invariant

  /** Appending past the written region keeps every stored offset readable. */
  lemma OffsetsDecodeExtend(table: map<Bytes, seq<nat>>, m: Bytes, wo: nat, m': Bytes, wo': nat)
    requires wo <= |m| && wo <= wo' <= |m'| && m'[..wo] == m[..wo]
    requires OffsetsDecode(table, m, wo)
    ensures OffsetsDecode(table, m', wo')
  {
    forall pk, j | pk in table && 0 <= j < |table[pk]| && table[pk][j] != SENTINEL
      ensures ReadEntry(m'[..wo'], table[pk][j]).Some?
    {
      assert m'[..wo'][..wo] == m[..wo];
      ReadEntryExtends(m[..wo], m'[..wo'], table[pk][j]);
    }
  }

  /** Every offset in one key's slot vector reads an entry inside the written region. */
  ghost predicate SlotsDecode(offsets: seq<nat>, m: Bytes, writeOffset: nat)
    requires writeOffset <= |m|
  {
    forall j {:trigger ReadEntry(m[..writeOffset], offsets[j])} ::
      0 <= j < |offsets| && offsets[j] != SENTINEL ==> ReadEntry(m[..writeOffset], offsets[j]).Some?
  }

  /** A key's vector, or the empty one of an unknown key, is readable when the table is. */
  lemma SlotsDecodeOfLookup(table: map<Bytes, seq<nat>>, m: Bytes, wo: nat, pk: Bytes)
    requires wo <= |m| && OffsetsDecode(table, m, wo)
    ensures SlotsDecode(Lookup(table, pk), m, wo)
  {
    if pk in table {
      forall j | 0 <= j < |table[pk]| && table[pk][j] != SENTINEL
        ensures ReadEntry(m[..wo], table[pk][j]).Some?
      {
      }
    }
  }

  /** A readable vector can be stored under any key of a readable table. */
  lemma OffsetsDecodeJoin(table: map<Bytes, seq<nat>>, m: Bytes, wo: nat, pk: Bytes, offsets: seq<nat>)
    requires wo <= |m| && OffsetsDecode(table, m, wo) && SlotsDecode(offsets, m, wo)
    ensures OffsetsDecode(table[pk := offsets], m, wo)
  {
    var t := table[pk := offsets];
    forall k, j | k in t && 0 <= j < |t[k]| && t[k][j] != SENTINEL
      ensures ReadEntry(m[..wo], t[k][j]).Some?
    {
      if k == pk {
        assert t[k] == offsets;
      }
    }
  }

  /** A slot vector stays readable as the written region grows. */
  lemma SlotsDecodeExtend(offsets: seq<nat>, m: Bytes, wo: nat, m': Bytes, wo': nat)
    requires wo <= |m| && wo <= wo' <= |m'| && m'[..wo] == m[..wo]
    requires SlotsDecode(offsets, m, wo)
    ensures SlotsDecode(offsets, m', wo')
  {
    forall j | 0 <= j < |offsets| && offsets[j] != SENTINEL
      ensures ReadEntry(m'[..wo'], offsets[j]).Some?
    {
      assert m'[..wo'][..wo] == m[..wo];
      ReadEntryExtends(m[..wo], m'[..wo'], offsets[j]);
    }
  }

  /** Storing a readable offset keeps a slot vector readable. */
  lemma SlotsDecodeSet(offsets: seq<nat>, m: Bytes, wo: nat, fid: nat, o: nat)
    requires wo <= |m| && SlotsDecode(offsets, m, wo) && ReadEntry(m[..wo], o).Some?
    ensures SlotsDecode(SetSlot(offsets, fid, o), m, wo)
  {
  }

  /** Clearing slots keeps every stored offset readable. */
  lemma OffsetsDecodeClear(table: map<Bytes, seq<nat>>, m: Bytes, wo: nat, pk: Bytes, ids: seq<nat>)
    requires wo <= |m| && OffsetsDecode(table, m, wo) && pk in table
    ensures OffsetsDecode(table[pk := ClearSlots(table[pk], ids)], m, wo)
  {
    ClearSlotsSpec(table[pk], ids);
  }

  function Zeros(n: nat): (r: Bytes)
    ensures |r| == n && forall i :: 0 <= i < n ==> r[i] == 0
  {
    seq(n, _ => 0)
  }

  /** The value a key's slot vector holds for `fid`, as `read_field` reads it. */
  function ReadSlot(m: Bytes, offsets: seq<nat>, fid: nat): (r: Option<Bytes>)
    ensures r.Some? ==> fid < |offsets| && offsets[fid] != SENTINEL
    ensures r.Some? ==> ReadFromMmap(m, offsets[fid]).Some? && ReadFromMmap(m, offsets[fid]).value.0 != UNKNOWN
  {
    if fid >= |offsets| then None
    else
      match ReadFromMmap(m, offsets[fid])
      case None => None
      case Some(p) => if p.0 == UNKNOWN then None else Some(p.1)
  }

  /** A slot that reads inside the written prefix reads the same in any region sharing that prefix. */
  lemma ReadSlotExtends(m: Bytes, wo: nat, m': Bytes, offsets: seq<nat>, fid: nat)
    requires wo <= |m| && wo <= |m'| && m'[..wo] == m[..wo] && SlotsDecode(offsets, m, wo)
    ensures ReadSlot(m', offsets, fid) == ReadSlot(m, offsets, fid)
  {
    if fid < |offsets| && offsets[fid] != SENTINEL {
      assert ReadEntry(m[..wo], offsets[fid]).Some?;
      assert m[..|m[..wo]|] == m[..wo];
      ReadEntryExtends(m[..wo], m, offsets[fid]);
      assert m'[..|m[..wo]|] == m[..wo];
      ReadEntryExtends(m[..wo], m', offsets[fid]);
    }
  }

  /**
   * An update of key `pk` written past the old region leaves every other
   * key's reads, and the key's own reads of the ids it does not name, as
   * they were.
   */
  lemma UpdateKeepsOtherReads(t: map<Bytes, seq<nat>>, m: Bytes, wo: nat, m': Bytes,
                              pk: Bytes, ids: seq<nat>, os: seq<nat>, k: Bytes, fid: nat)
    requires wo <= |m| && wo <= |m'| && m'[..wo] == m[..wo] && OffsetsDecode(t, m, wo) && |os| == |ids|
    requires k != pk || fid !in ids
    ensures ReadSlot(m', Lookup(t[pk := UpdateSlots(Lookup(t, pk), ids, os)], k), fid) == ReadSlot(m, Lookup(t, k), fid)
  {
    SlotsDecodeOfLookup(t, m, wo, k);
    ReadSlotExtends(m, wo, m', Lookup(t, k), fid);
    if k == pk {
      var before := Lookup(t, pk);
      var after := UpdateSlots(before, ids, os);
      UpdateSlotsLength(before, ids, os);
      if fid < |after| {
        UpdateSlotsUntouched(before, ids, os, fid);
      }
    }
  }

  /** The size loop of `upsert_document`: the total size, or the first value's size error. */
  method TotalEntrySize(values: seq<FieldValue>) returns (r: Result<nat, SegmentError>)
    ensures r.Ok? <==> AllSizesOk(values)
    ensures r.Ok? ==> r.value == SumSizes(values)
    ensures r.Err? ==> exists i :: 0 <= i < |values| && SizeOfMmapEntry(values[i]) == Err(r.error)
  {
    var total := 0;
    var i := 0;
    while i < |values|
      invariant i <= |values|
      invariant AllSizesOk(values[..i])
      invariant total == SumSizes(values[..i])
    {
      assert values[..i + 1][..i] == values[..i];
      var size := SizeOfMmapEntry(values[i]);
      if size.Err? {
        return Err(size.error);
      }
      total := total + size.value;
      i := i + 1;
    }
    assert values[..i] == values;
    return Ok(total);
  }

  /**
   * The write loop of `upsert_document`: writes `values[i]` for each
   * `fieldIds[i]` one after another from `start`, and returns the region,
   * the new write offset, the key's new slot vector and the offsets logged.
   * Every value it wrote reads back, and so does every offset stored before.
   */
  method WriteBatch(m: Bytes, start: nat, base: seq<nat>, fieldIds: seq<nat>, values: seq<FieldValue>)
    returns (m': Bytes, end: nat, offsets: seq<nat>, loggedOffsets: seq<nat>)
    requires |fieldIds| <= |values| && AllFit(values) && AllSizesOk(values[..|fieldIds|])
    requires start + SumSizes(values[..|fieldIds|]) <= |m|
    requires start + SumSizes(values[..|fieldIds|]) < SENTINEL
    requires start <= |m| && SlotsDecode(base, m, start)
    ensures loggedOffsets == EntryOffsets(start, values[..|fieldIds|])
    ensures end == start + SumSizes(values[..|fieldIds|])
    ensures |m'| == |m| && m'[..start] == m[..start]
    ensures offsets == UpdateSlots(base, fieldIds, loggedOffsets)
    ensures end <= |m'| && SlotsDecode(offsets, m', end)
    ensures Readable(m'[..end], loggedOffsets, values[..|fieldIds|])
  {
    ghost var written := values[..|fieldIds|];
    assert AllFit(written) by {
      forall k | 0 <= k < |written| ensures FitsFixedWidth(written[k]) {
        assert written[k] == values[k];
      }
    }
    m' := m;
    end := start;
    offsets := base;
    loggedOffsets := [];
    var j := 0;
    assert fieldIds[..0] == [] && written[..0] == [];
    while j < |fieldIds|
      invariant j <= |fieldIds|
      invariant BatchState(m, start, base, fieldIds, written, j, m', end, offsets, loggedOffsets)
    {
      var fid := fieldIds[j];
      var value := values[j];
      assert value == written[j];
      BatchFits(m, start, fieldIds, written, j, m', end, offsets, loggedOffsets, base);
      EncodeEntryLength(value);
      var w := WriteToMmap(m', end, value);
      var next := w.value.0;
      var end' := end + |EncodeEntry(value)|;
      WriteStep(m', next, end, end', value);
      BatchAdvance(m, start, base, fieldIds, written, j, m', end, offsets, loggedOffsets, next, end');
      offsets := SetSlot(offsets, fid, end);
      loggedOffsets := loggedOffsets + [end];
      end := end';
      m' := next;
      j := j + 1;
    }
    assert fieldIds[..j] == fieldIds;
    assert written[..j] == written;
  }

  /** The state of the write loop after `j` values. */
  ghost predicate BatchState(m: Bytes, start: nat, base: seq<nat>, fieldIds: seq<nat>, written: seq<FieldValue>,
                             j: nat, m': Bytes, end: nat, offsets: seq<nat>, logged: seq<nat>)
  {
    && j <= |written| == |fieldIds|
    && logged == EntryOffsets(start, written[..j])
    && end == start + SumSizes(written[..j])
    && |m'| == |m| && start <= |m| && m'[..start] == m[..start]
    && offsets == UpdateSlots(base, fieldIds[..j], logged)
    && end <= |m'|
    && SlotsDecode(offsets, m', end)
    && Readable(m'[..end], logged, written[..j])
  }

  /** In the write loop the next value always fits below the region's end. */
  lemma BatchFits(m: Bytes, start: nat, fieldIds: seq<nat>, written: seq<FieldValue>,
                  j: nat, m': Bytes, end: nat, offsets: seq<nat>, logged: seq<nat>, base: seq<nat>)
    requires j < |fieldIds| && AllFit(written) && AllSizesOk(written)
    requires start + SumSizes(written) <= |m| && start + SumSizes(written) < SENTINEL
    requires BatchState(m, start, base, fieldIds, written, j, m', end, offsets, logged)
    ensures FitsFixedWidth(written[j]) && SizeOfMmapEntry(written[j]).Ok?
    ensures end + EntrySize(written[j]) <= |m'| && end != SENTINEL
  {
    BatchStep(written, fieldIds, j, start, start + SumSizes(written), base, logged, end);
  }

  /**
   * One turn of the write loop: once the next value reads back at `end`
   * from the new region, the loop moves to its next state.
   */
  lemma BatchAdvance(m: Bytes, start: nat, base: seq<nat>, fieldIds: seq<nat>, written: seq<FieldValue>,
                     j: nat, m': Bytes, end: nat, offsets: seq<nat>, logged: seq<nat>, next: Bytes, end': nat)
    requires j < |fieldIds| && start + SumSizes(written) <= |m|
    requires BatchState(m, start, base, fieldIds, written, j, m', end, offsets, logged)
    requires |next| == |m'| && end <= end' <= |next| && next[..end] == m'[..end] && end' == end + EntrySize(written[j])
    requires ReadEntry(next[..end'], end) == Some(Entry(Kind(written[j]), Payload(written[j]), end'))
    ensures BatchState(m, start, base, fieldIds, written, j + 1, next, end', SetSlot(offsets, fieldIds[j], end), logged + [end])
  {
    var v := written[j];
    BatchStep(written, fieldIds, j, start, start + SumSizes(written), base, logged, end);
    SlotsDecodeExtend(offsets, m', end, next, end');
    SlotsDecodeSet(offsets, next, end', fieldIds[j], end);
    ReadableStep(m', end, next, end', logged, written[..j], v);
    assert next[..start] == m[..start] by {
      assert next[..end][..start] == m'[..end][..start];
    }
  }

  /** How the running totals of the write loop grow by one value. */
  lemma BatchStep(vs: seq<FieldValue>, ids: seq<nat>, j: nat, start: nat, total: nat,
                  base: seq<nat>, os: seq<nat>, x: nat)
    requires j < |vs| <= |ids| && total == start + SumSizes(vs) && |os| == j
    ensures vs[..j + 1] == vs[..j] + [vs[j]] && ids[..j + 1] == ids[..j] + [ids[j]]
    ensures SumSizes(vs[..j + 1]) == SumSizes(vs[..j]) + EntrySize(vs[j])
    ensures start + SumSizes(vs[..j + 1]) <= total
    ensures EntryOffsets(start, vs[..j + 1]) == EntryOffsets(start, vs[..j]) + [start + SumSizes(vs[..j])]
    ensures UpdateSlots(base, ids[..j + 1], os + [x]) == SetSlot(UpdateSlots(base, ids[..j], os), ids[j], x)
  {
    assert vs[..j + 1][..j] == vs[..j];
    assert ids[..j + 1][..j] == ids[..j];
    assert (os + [x])[..j] == os;
    SumSizesPrefix(vs, j + 1);
  }

  /** What a segment directory holds from an earlier run: the offset-table log, the region and the saved write offset. */
  datatype SavedSegment = SavedSegment(log: seq<LogEntry>, mmap: Bytes, writeOffset: nat)

  /** Files a segment wrote: a well-formed log whose every replayed offset reads back from the region. */
  ghost predicate Restorable(saved: SavedSegment)
  {
    && WellFormedLog(saved.log)
    && saved.writeOffset <= |saved.mmap|
    && OffsetsDecode(Replay(saved.log), saved.mmap, saved.writeOffset)
  }

  /** One segment: the offset table, the memory-mapped values and the update log. */
  class Segment {
    /** Primary key to the offset of each field's value, by field id. */
    var offsetTable: map<Bytes, seq<nat>>
    /** The memory-mapped value region. */
    var mmap: Bytes
    /** Where the next value goes; everything before it has been written. */
    var writeOffset: nat
    /** The offset-table file, one entry per update, in order. */
    var log: seq<LogEntry>

    ghost predicate Valid()
      reads this
    {
      && WellFormedLog(log)
      && offsetTable == Replay(log)
      && writeOffset <= |mmap|
      && OffsetsDecode(offsetTable, mmap, writeOffset)
    }

    /** `new`: an empty segment. */
    constructor Create()
      ensures Valid()
      ensures offsetTable == map[] && mmap == [] && writeOffset == 0 && log == []
    {
      offsetTable := map[];
      mmap := [];
      writeOffset := 0;
      log := [];
    }

    /**
     * `open_or_create` on an existing segment: the table is rebuilt by
     * replaying the saved log. The saved region and write offset must be
     * ones this segment wrote, so that every replayed offset is readable.
     */
    constructor Reopen(savedLog: seq<LogEntry>, savedMmap: Bytes, savedWriteOffset: nat)
      requires WellFormedLog(savedLog) && savedWriteOffset <= |savedMmap|
      requires OffsetsDecode(Replay(savedLog), savedMmap, savedWriteOffset)
      ensures Valid()
      ensures offsetTable == Replay(savedLog) && log == savedLog
      ensures mmap == savedMmap && writeOffset == savedWriteOffset
    {
      var table := ReplayLog(savedLog);
      offsetTable := table;
      mmap := savedMmap;
      writeOffset := savedWriteOffset;
      log := savedLog;
    }

    /**
     * The state `open_or_create` leaves: empty for a missing directory,
     * otherwise the saved files with the table replayed from the log.
     */
    ghost predicate OpenedFrom(saved: Option<SavedSegment>)
      reads this
    {
      match saved
      case None => offsetTable == map[] && mmap == [] && writeOffset == 0 && log == []
      case Some(s) =>
        WellFormedLog(s.log) && offsetTable == Replay(s.log) && log == s.log
        && mmap == s.mmap && writeOffset == s.writeOffset
    }

    /**
     * `read_field`: the value of a field, None for an unknown key, a slot
     * past the vector, a deleted slot or an UNKNOWN-typed value.
     */
    function ReadField(pk: Bytes, fid: nat): (r: Option<Bytes>)
      reads this
      ensures r.Some? ==> pk in offsetTable && fid < |offsetTable[pk]| && offsetTable[pk][fid] != SENTINEL
    {
      if pk in offsetTable then ReadSlot(mmap, offsetTable[pk], fid) else None
    }

    /** The size-prefixed answer for a list of optional field ids, as `read_field` sees each. */
    function ReadFieldsEncoding(pk: Bytes, fieldIds: seq<Option<nat>>): Bytes
      reads this
      decreases |fieldIds|
    {
      if fieldIds == [] then []
      else
        var last := fieldIds[|fieldIds| - 1];
        ReadFieldsEncoding(pk, fieldIds[..|fieldIds| - 1])
          + EncodeRead(if last.None? then None else ReadField(pk, last.value))
    }

    lemma ReadFieldsEncodingStep(pk: Bytes, fieldIds: seq<Option<nat>>, i: nat)
      requires i < |fieldIds|
      ensures ReadFieldsEncoding(pk, fieldIds[..i + 1]) == ReadFieldsEncoding(pk, fieldIds[..i])
        + EncodeRead(if fieldIds[i].None? then None else ReadField(pk, fieldIds[i].value))
    {
      assert fieldIds[..i + 1][..i] == fieldIds[..i];
    }

    /**
     * `read_fields`: appends one size-prefixed slot per requested id to
     * `dest`, agreeing with `read_field` on every id.
     */
    method ReadFields(pk: Bytes, fieldIds: seq<Option<nat>>, dest: Bytes) returns (out: Bytes)
      ensures out == dest + ReadFieldsEncoding(pk, fieldIds)
    {
      var appended: Bytes := [];
      if pk !in offsetTable {
        var i := 0;
        while i < |fieldIds|
          invariant i <= |fieldIds|
          invariant appended == ReadFieldsEncoding(pk, fieldIds[..i])
        {
          ReadFieldsEncodingStep(pk, fieldIds, i);
          appended := appended + NONE_SIZE;
          i := i + 1;
        }
        assert fieldIds[..i] == fieldIds;
        return dest + appended;
      }
      var offsets := offsetTable[pk];
      var i := 0;
      while i < |fieldIds|
        invariant i <= |fieldIds|
        invariant appended == ReadFieldsEncoding(pk, fieldIds[..i])
      {
        ReadFieldsEncodingStep(pk, fieldIds, i);
        var id := fieldIds[i];
        var slot: Option<Bytes> := None;
        if id.Some? {
          slot := ReadSlot(mmap, offsets, id.value);
        }
        appended := appended + EncodeRead(slot);
        i := i + 1;
      }
      assert fieldIds[..i] == fieldIds;
      return dest + appended;
    }

    /**
     * `expand_mmap_if_required`: when fewer than `numBytes` bytes follow the
     * write offset, grow the region by enough zeroed 8 MiB chunks.
     */
    method ExpandIfRequired(numBytes: nat)
      modifies this`mmap
      ensures |mmap| >= writeOffset + numBytes && |mmap| >= |old(mmap)|
      ensures mmap[..|old(mmap)|] == old(mmap)
      ensures forall i :: |old(mmap)| <= i < |mmap| ==> mmap[i] == 0
      ensures |old(mmap)| >= writeOffset + numBytes ==> mmap == old(mmap)
      ensures |old(mmap)| < writeOffset + numBytes ==>
        |mmap| == |old(mmap)| + CHUNK_SIZE * (1 + (writeOffset + numBytes - |old(mmap)|) / CHUNK_SIZE)
    {
      var endOffset := writeOffset + numBytes;
      if |mmap| >= endOffset {
        return;
      }
      var numChunks := 1 + (endOffset - |mmap|) / CHUNK_SIZE;
      mmap := mmap + Zeros(CHUNK_SIZE * numChunks);
    }

    /**
     * `upsert_document`: writes `values[i]` for each `fieldIds[i]` after the
     * write offset, points the key's slots at them and logs the update.
     * The size of every value is checked before anything changes.
     */
    method UpsertDocument(pk: Bytes, fieldIds: seq<nat>, values: seq<FieldValue>)
      returns (r: Result<(), SegmentError>)
      requires Valid()
      requires |fieldIds| <= |values|
      requires AllFit(values)
      requires writeOffset + SumSizes(values) < SENTINEL
      modifies this
      ensures Valid()
      ensures (pk == [] || fieldIds == []) ==> r.Ok? && unchanged(this)
      ensures pk != [] && fieldIds != [] ==> (r.Ok? <==> AllSizesOk(values))
      ensures r.Err? ==> unchanged(this) && exists i :: 0 <= i < |values| && SizeOfMmapEntry(values[i]) == Err(r.error)
      ensures r.Ok? && pk != [] && fieldIds != [] ==>
        var written := values[..|fieldIds|];
        var offs := EntryOffsets(old(writeOffset), written);
        && log == old(log) + [UpdateDocFields(pk, fieldIds, offs)]
        && offsetTable == old(offsetTable)[pk := UpdateSlots(Lookup(old(offsetTable), pk), fieldIds, offs)]
        && writeOffset == old(writeOffset) + SumSizes(written)
        && mmap[..old(writeOffset)] == old(mmap)[..old(writeOffset)]
        && Readable(mmap[..writeOffset], offs, written)
      ensures r.Ok? && pk != [] ==> forall k :: IsLastOccurrence(fieldIds, k) ==>
        ReadField(pk, fieldIds[k]) == if Kind(values[k]) == UNKNOWN then None else Some(values[k].value)
    {
      if pk == [] || fieldIds == [] {
        return Ok(());
      }
      var total := TotalEntrySize(values);
      if total.Err? {
        return Err(total.error);
      }
      ghost var m0 := mmap;
      ExpandIfRequired(total.value);
      assert mmap[..writeOffset] == m0[..writeOffset] by {
        assert mmap[..|m0|][..writeOffset] == mmap[..writeOffset];
      }
      OffsetsDecodeExtend(offsetTable, m0, writeOffset, mmap, writeOffset);
      SumSizesPrefix(values, |fieldIds|);
      ghost var written := values[..|fieldIds|];
      assert AllSizesOk(written);
      var base := Lookup(offsetTable, pk);
      SlotsDecodeOfLookup(offsetTable, mmap, writeOffset, pk);
      var m, wo, offsets, loggedOffsets := WriteBatch(mmap, writeOffset, base, fieldIds, values);
      OffsetsDecodeExtend(offsetTable, mmap, writeOffset, m, wo);
      OffsetsDecodeJoin(offsetTable, m, wo, pk, offsets);
      var entry := UpdateDocFields(pk, fieldIds, loggedOffsets);
      assert loggedOffsets[..|fieldIds|] == loggedOffsets;
      LogAppend(log, entry);
      mmap := m;
      writeOffset := wo;
      offsetTable := offsetTable[pk := offsets];
      log := log + [entry];
      forall k | IsLastOccurrence(fieldIds, k)
        ensures ReadField(pk, fieldIds[k]) == if Kind(values[k]) == UNKNOWN then None else Some(values[k].value)
      {
        UpdateSlotsWritten(base, fieldIds, loggedOffsets, k);
        ReadBack(mmap, writeOffset, loggedOffsets, written, k);
      }
      return Ok(());
    }

    /**
     * `delete_field_values`: logs the deletion, then resets each named
     * slot of the key that exists to the sentinel.
     */
    method DeleteFieldValues(pk: Bytes, fieldIds: seq<nat>)
      requires Valid()
      modifies this
      ensures Valid()
      ensures (pk == [] || fieldIds == []) ==> unchanged(this)
      ensures pk != [] && fieldIds != [] ==>
        && log == old(log) + [DeleteDocFields(pk, fieldIds)]
        && mmap == old(mmap) && writeOffset == old(writeOffset)
        && offsetTable == if pk in old(offsetTable) then old(offsetTable)[pk := ClearSlots(old(offsetTable)[pk], fieldIds)] else old(offsetTable)
      ensures pk != [] ==> forall fid :: fid in fieldIds ==> ReadField(pk, fid).None?
      ensures forall k, fid :: k != pk ==> ReadField(k, fid) == old(ReadField(k, fid))
      ensures forall fid :: fid !in fieldIds ==> ReadField(pk, fid) == old(ReadField(pk, fid))
    {
      if pk == [] || fieldIds == [] {
        return;
      }
      var entry := DeleteDocFields(pk, fieldIds);
      LogAppend(log, entry);
      log := log + [entry];
      if pk !in offsetTable {
        return;
      }
      OffsetsDecodeClear(offsetTable, mmap, writeOffset, pk, fieldIds);
      ClearSlotsSpec(offsetTable[pk], fieldIds);
      var offsets := ClearSlotsLoop(offsetTable[pk], fieldIds);
      offsetTable := offsetTable[pk := offsets];
    }

    /** `delete_document`: logs the deletion and drops the key's slots. */
    method DeleteDocument(pk: Bytes)
      requires Valid()
      modifies this
      ensures Valid()
      ensures pk == [] ==> unchanged(this)
      ensures pk != [] ==>
        && log == old(log) + [DeleteDoc(pk)]
        && offsetTable == old(offsetTable) - {pk}
        && mmap == old(mmap) && writeOffset == old(writeOffset)
      ensures pk != [] ==> forall fid :: ReadField(pk, fid).None?
      ensures forall k, fid :: k != pk ==> ReadField(k, fid) == old(ReadField(k, fid))
    {
      if pk == [] {
        return;
      }
      var entry := DeleteDoc(pk);
      LogAppend(log, entry);
      log := log + [entry];
      offsetTable := offsetTable - {pk};
    }

    /** `delete_all_documents`: empties the table, the log and the region. */
    method DeleteAllDocuments()
      modifies this
      ensures Valid()
      ensures offsetTable == map[] && log == [] && mmap == [] && writeOffset == 0
    {
      offsetTable := map[];
      log := [];
      mmap := [];
      writeOffset := 0;
    }
  }

  /** Each value of a batch reads back from its offset, ending where its size says. */
  ghost predicate Readable(m: Bytes, offs: seq<nat>, vs: seq<FieldValue>)
    requires |offs| == |vs|
  {
    forall k {:trigger ReadEntry(m, offs[k])} :: 0 <= k < |vs| ==>
      ReadEntry(m, offs[k]) == Some(Entry(Kind(vs[k]), Payload(vs[k]), offs[k] + EntrySize(vs[k])))
  }

  lemma ReadableStep(prev: Bytes, off: nat, next: Bytes, off': nat, offs: seq<nat>, vs: seq<FieldValue>, v: FieldValue)
    requires |offs| == |vs| && off <= |prev| && off <= off' <= |next| && next[..off] == prev[..off]
    requires Readable(prev[..off], offs, vs)
    requires off' == off + EntrySize(v)
    requires ReadEntry(next[..off'], off) == Some(Entry(Kind(v), Payload(v), off'))
    ensures Readable(next[..off'], offs + [off], vs + [v])
  {
    ReadableExtend(prev, off, next, off', offs, vs);
    forall k | 0 <= k < |vs| + 1
      ensures ReadEntry(next[..off'], (offs + [off])[k]) == Some(Entry(Kind((vs + [v])[k]), Payload((vs + [v])[k]), (offs + [off])[k] + EntrySize((vs + [v])[k])))
    {
      if k < |vs| {
        assert (offs + [off])[k] == offs[k] && (vs + [v])[k] == vs[k];
      } else {
        assert (offs + [off])[k] == off && (vs + [v])[k] == v;
      }
    }
  }

  /** Entries that read back from a region still read back once it grows. */
  lemma ReadableExtend(prev: Bytes, off: nat, next: Bytes, off': nat, offs: seq<nat>, vs: seq<FieldValue>)
    requires |offs| == |vs| && off <= |prev| && off <= off' <= |next| && next[..off] == prev[..off]
    requires Readable(prev[..off], offs, vs)
    ensures Readable(next[..off'], offs, vs)
  {
    forall k | 0 <= k < |vs|
      ensures ReadEntry(next[..off'], offs[k]) == Some(Entry(Kind(vs[k]), Payload(vs[k]), offs[k] + EntrySize(vs[k])))
    {
      assert next[..off'][..off] == prev[..off];
      ReadEntryExtends(prev[..off], next[..off'], offs[k]);
    }
  }


  /** A value that reads back inside the written region reads back the same from the whole region. */
  lemma ReadBack(m: Bytes, wo: nat, offs: seq<nat>, vs: seq<FieldValue>, k: nat)
    requires wo <= |m| && k < |offs| == |vs| && Readable(m[..wo], offs, vs)
    ensures ReadFromMmap(m, offs[k]) == Some((Kind(vs[k]), Payload(vs[k])))
  {
    assert ReadEntry(m[..wo], offs[k]).Some?;
    assert m[..|m[..wo]|] == m[..wo];
    ReadEntryExtends(m[..wo], m, offs[k]);
  }

  lemma LogAppend(log: seq<LogEntry>, e: LogEntry)
    requires WellFormedLog(log) && (e.UpdateDocFields? ==> |e.offsets| >= |e.fieldIds|)
    ensures WellFormedLog(log + [e]) && Replay(log + [e]) == Apply(Replay(log), e)
  {
    assert (log + [e])[..|log|] == log;
  }

  /** One write of the upsert loop leaves the region before it alone and reads back. */
  lemma WriteStep(prev: Bytes, next: Bytes, off: nat, off': nat, v: FieldValue)
    requires SizeOfMmapEntry(v).Ok? && FitsFixedWidth(v) && off != SENTINEL
    requires off + |EncodeEntry(v)| <= |prev|
    requires WriteToMmap(prev, off, v).Ok? && next == WriteToMmap(prev, off, v).value.0
    requires off' == off + |EncodeEntry(v)|
    ensures |next| == |prev| && next[..off] == prev[..off]
    ensures ReadEntry(next[..off'], off) == Some(Entry(Kind(v), Payload(v), off'))
  {
    EntryReadable(next, off, off', v);
  }

  /** Overwriting `|e|` bytes at `off` with `e` extends the region before `off` by `e`. */
  lemma Splice(prev: Bytes, start: nat, off: nat, e: Bytes)
    requires start <= off && off + |e| <= |prev|
    ensures var next := prev[..off] + e + prev[off + |e|..];
      && next[..off] == prev[..off]
      && next[off..off + |e|] == e
      && next[start..off + |e|] == prev[start..off] + e
  {
  }

  lemma EntryReadable(next: Bytes, off: nat, off': nat, v: FieldValue)
    requires SizeOfMmapEntry(v).Ok? && FitsFixedWidth(v) && off != SENTINEL
    requires off' == off + |EncodeEntry(v)| <= |next| && next[off..off'] == EncodeEntry(v)
    ensures ReadEntry(next[..off'], off) == Some(Entry(Kind(v), Payload(v), off'))
  {
    EncodeEntryLength(v);
    assert next[..off'][off..off'] == next[off..off'];
    ReadEntryOfEncoded(next[..off'], off, v);
  }
}
