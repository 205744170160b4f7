/**
 * The Java clients' side of the batch-read framing. The key buffer is
 * built in a fixed-size little-endian byte buffer whose capacity is summed
 * in Java `int` arithmetic; the value buffer the native side returns is
 * read back with a cursor, one size-prefixed entry at a time.
 */
module ClientFraming {
  import opened Wrappers
  import opened ByteCodec
  import opened SizePrefixed
  import opened JavaExceptions
  import opened Text

  /**
   * The key buffer for `items`: their framing when its length fits a Java
   * `int`. A longer one wraps the summed capacity around: a negative
   * capacity is refused by the allocation (IllegalArgumentException), and a
   * non-negative one is too small, so a write overflows the buffer
   * (BufferOverflowException).
   */
  function Packed(items: seq<Bytes>): (r: Result<Bytes, Thrown>)
    ensures r.Ok? <==> Capacity(items) <= I32_MAX
  {
    if Capacity(items) <= I32_MAX then Ok(Frame(items))
    else if I32Wrap(Capacity(items)) < 0 then Err(IllegalArgument(""))
    else Err(Runtime)
  }

  /** Items that fit read back from their key buffer. */
  lemma PackedRoundTrip(items: seq<Bytes>)
    requires Packed(items).Ok?
    ensures Unframe(Packed(items).value) == Some(items)
  {
    assert Framable(items) by {
      forall i | 0 <= i < |items|
        ensures |items[i]| <= I32_MAX
      {
        CapacityPrefix(items, i + 1);
        FrameSnoc(items, i);
      }
    }
    UnframeFrame(items);
  }

  /** The capacity loop: `Σ (4 + |item|)` in Java `int` arithmetic. */
  method SumCapacity(items: seq<Bytes>) returns (capacity: int)
    ensures capacity == I32Wrap(Capacity(items))
  {
    capacity := 0;
    for i := 0 to |items|
      invariant capacity == I32Wrap(Capacity(items[..i]))
    {
      assert Capacity(items[..i + 1]) == Capacity(items[..i]) + 4 + |items[i]| by {
        FrameSnoc(items, i);
      }
      I32WrapAdd(Capacity(items[..i]), 4 + |items[i]|);
      capacity := I32Wrap(capacity + 4 + |items[i]|);
    }
    assert items[..|items|] == items;
  }

  /** One entry written at `pos`: its i32 length, then its bytes. */
  method PutEntry(buf: array<Byte>, pos: nat, item: Bytes)
    requires pos + 4 + |item| <= buf.Length
    modifies buf
    ensures buf[..pos + 4 + |item|] == old(buf[..pos]) + I32Le(|item|) + item
  {
    Put(buf, pos, I32Le(|item|));
    Put(buf, pos + 4, item);
  }

  /**
   * The write loop into a buffer of `capacity` bytes: each item's i32
   * length, then its bytes; a write past the capacity is a
   * BufferOverflowException.
   */
  method WriteAll(items: seq<Bytes>, capacity: nat) returns (r: Result<Bytes, Thrown>)
    ensures r.Ok? ==> |r.value| == capacity
    ensures Capacity(items) <= capacity ==> r.Ok? && r.value[..Capacity(items)] == Frame(items)
    ensures Capacity(items) > capacity ==> r == Err(Runtime)
  {
    var buf := new Byte[capacity];
    var pos := 0;
    for i := 0 to |items|
      invariant pos == Capacity(items[..i]) <= capacity
      invariant buf[..pos] == Frame(items[..i])
    {
      var item := items[i];
      if capacity - pos < 4 + |item| {
        assert Capacity(items) > capacity by {
          FrameSnoc(items, i);
          CapacityPrefix(items, i + 1);
        }
        return Err(Runtime);
      }
      PutEntry(buf, pos, item);
      FrameSnoc(items, i);
      pos := pos + 4 + |item|;
    }
    assert items[..|items|] == items;
    return Ok(buf[..]);
  }

  /**
   * The encoder: the capacity is summed as a Java `int`, the buffer is
   * allocated with it (a negative capacity is an IllegalArgumentException),
   * and the items are written into it.
   */
  method SizePrefixedConcat(items: seq<Bytes>) returns (r: Result<Bytes, Thrown>)
    ensures r == Packed(items)
  {
    var capacity := SumCapacity(items);
    if capacity < 0 {
      return Err(IllegalArgument(""));
    }
    r := WriteAll(items, capacity);
    if r.Ok? {
      assert |r.value| == capacity == Capacity(items);
      assert r.value == r.value[..Capacity(items)];
    }
  }

  /**
   * The entry at `pos` as the cursor reads it: too few bytes for the size
   * (BufferUnderflowException), a negative size (NegativeArraySizeException)
   * or a size past the end (BufferUnderflowException) fail; size 0 is null;
   * otherwise the next `size` bytes. The second component is where the
   * next entry starts.
   */
  function ReadAt(b: Bytes, pos: nat): (r: Result<(Option<Bytes>, nat), Thrown>)
    requires pos <= |b|
    ensures r.Err? ==> r.error == Runtime
    ensures r.Ok? ==> pos + 4 <= r.value.1 <= |b|
    ensures r.Ok? ==> r.value.0 == if r.value.1 == pos + 4 then None else Some(b[pos + 4..r.value.1])
  {
    if |b| - pos < 4 then Err(Runtime)
    else
      var size := I32FromLe(b[pos..pos + 4]);
      if size == 0 then Ok((None, pos + 4))
      else if size < 0 || size > |b| - pos - 4 then Err(Runtime)
      else Ok((Some(b[pos + 4..pos + 4 + size]), pos + 4 + size))
  }

  /** One entry read off the buffer is one item off the front of its framing, as far as it reads. */
  lemma ReadAtUnframe(b: Bytes, pos: nat, keys: seq<Bytes>, total: Option<seq<Bytes>>)
    requires pos < |b| && After(keys, Unframe(b[pos..])) == total
    ensures ReadAt(b, pos).Err? ==> total.None?
    ensures ReadAt(b, pos).Ok? ==>
      After(keys + [b[pos + 4..ReadAt(b, pos).value.1]], Unframe(b[ReadAt(b, pos).value.1..])) == total
  {
    var rest := b[pos..];
    if pos + 4 > |b| {
      assert ReadAt(b, pos).Err?;
    } else {
      assert rest[..4] == b[pos..pos + 4];
      var n := I32FromLe(b[pos..pos + 4]);
      if n < 0 || pos + 4 + n > |b| {
        assert ReadAt(b, pos).Err?;
      } else {
        assert ReadAt(b, pos).value.1 == pos + 4 + n;
        ReadOneItem(b, pos, keys, total);
      }
    }
  }

  /** Before the first entry nothing has been read. */
  lemma StartOfBuffer(b: Bytes)
    ensures After([], Unframe(b[0..])) == Unframe(b)
  {
    assert b[0..] == b;
    match Unframe(b) {
      case None =>
      case Some(items) => assert [] + items == items;
    }
  }

  /** Java's reading of a framed item: an empty one comes back as null. */
  function Nullable(x: Bytes): (r: Option<Bytes>)
    ensures r.None? <==> x == []
  {
    if x == [] then None else Some(x)
  }

  /** Each item as the iterators return it. */
  function Nulled(items: seq<Bytes>): (r: seq<Option<Bytes>>)
    ensures |r| == |items|
    ensures forall i :: 0 <= i < |items| ==> r[i] == Nullable(items[i])
  {
    seq(|items|, i requires 0 <= i < |items| => Nullable(items[i]))
  }

  /** The non-empty items, in order. */
  function NonEmpty(items: seq<Bytes>): (r: seq<Bytes>)
    ensures |r| <= |items|
    ensures forall i :: 0 <= i < |r| ==> r[i] != []
    decreases |items|
  {
    if items == [] then []
    else
      var last := items[|items| - 1];
      NonEmpty(items[..|items| - 1]) + (if last == [] then [] else [last])
  }

  lemma NonEmptySnoc(items: seq<Bytes>, x: Bytes)
    ensures NonEmpty(items + [x]) == NonEmpty(items) + (if x == [] then [] else [x])
  {
    assert (items + [x])[..|items|] == items;
  }

  /** Items none of which is empty are all kept. */
  lemma {:induction false} NonEmptyOfNonEmpty(items: seq<Bytes>)
    requires forall i :: 0 <= i < |items| ==> items[i] != []
    ensures NonEmpty(items) == items
    decreases |items|
  {
    if items != [] {
      NonEmptyOfNonEmpty(items[..|items| - 1]);
    }
  }

  /**
   * The value list the iterating readers return for a value buffer: every
   * entry, empty ones as null; a buffer that does not read is a
   * RuntimeException.
   */
  function DecodeNullable(b: Bytes): Result<seq<Option<Bytes>>, Thrown>
  {
    match Unframe(b)
    case None => Err(Runtime)
    case Some(items) => Ok(Nulled(items))
  }

  /** The value list the legacy reader returns: only the non-empty entries. */
  function DecodePresent(b: Bytes): Result<seq<Bytes>, Thrown>
  {
    match Unframe(b)
    case None => Err(Runtime)
    case Some(items) => Ok(NonEmpty(items))
  }

  /** Items that are all non-empty come back as themselves from their framing. */
  lemma DecodeNullableOfFrame(items: seq<Bytes>)
    requires Framable(items) && forall i :: 0 <= i < |items| ==> items[i] != []
    ensures DecodeNullable(Frame(items)).Ok?
    ensures |DecodeNullable(Frame(items)).value| == |items|
    ensures forall i :: 0 <= i < |items| ==> DecodeNullable(Frame(items)).value[i] == Some(items[i])
  {
    UnframeFrame(items);
  }

  /** Empty items framed among others come back as null, in their place. */
  lemma DecodeNullableKeepsPlaces(items: seq<Bytes>)
    requires Framable(items)
    ensures DecodeNullable(Frame(items)).Ok?
    ensures |DecodeNullable(Frame(items)).value| == |items|
    ensures forall i :: 0 <= i < |items| ==> (DecodeNullable(Frame(items)).value[i].None? <==> items[i] == [])
  {
    UnframeFrame(items);
  }

  /** The legacy reader drops exactly the entries the iterating readers give as null. */
  lemma DecodePresentOfFrame(items: seq<Bytes>)
    requires Framable(items)
    ensures DecodePresent(Frame(items)) == Ok(NonEmpty(items))
  {
    UnframeFrame(items);
  }

  /** A cursor over a value buffer: `ByteBuffer.wrap(result)` and its position. */
  class ValueCursor {
    const buffer: Bytes
    var position: nat

    constructor(buffer: Bytes)
      ensures this.buffer == buffer && position == 0
    {
      this.buffer := buffer;
      position := 0;
    }

    /** `hasRemaining`. */
    predicate HasNext()
      reads this
    {
      position < |buffer|
    }

    /**
     * `next`: the entry at the position, the position moving past it. A
     * failed size read leaves the position; a failed value read leaves it
     * just past the size.
     */
    method Next() returns (r: Result<Option<Bytes>, Thrown>)
      requires position <= |buffer|
      modifies this
      ensures ReadAt(buffer, old(position)).Ok? ==>
        r == Ok(ReadAt(buffer, old(position)).value.0) && position == ReadAt(buffer, old(position)).value.1
      ensures ReadAt(buffer, old(position)).Err? ==>
        r == Err(Runtime) && position == if |buffer| - old(position) < 4 then old(position) else old(position) + 4
    {
      if |buffer| - position < 4 {
        return Err(Runtime);
      }
      var size := I32FromLe(buffer[position..position + 4]);
      position := position + 4;
      if size == 0 {
        return Ok(None);
      }
      if size < 0 || size > |buffer| - position {
        return Err(Runtime);
      }
      r := Ok(Some(buffer[position..position + size]));
      position := position + size;
    }
  }

  /**
   * The drain loop of the iterating readers: every entry until the buffer
   * is exhausted, empty ones as null; an entry that does not read ends it
   * with a RuntimeException.
   */
  method DrainNullable(result: Bytes) returns (r: Result<seq<Option<Bytes>>, Thrown>)
    ensures r == DecodeNullable(result)
  {
    var cursor := new ValueCursor(result);
    var values: seq<Option<Bytes>> := [];
    ghost var items: seq<Bytes> := [];
    StartOfBuffer(result);
    while cursor.HasNext()
      invariant cursor.buffer == result && cursor.position <= |result|
      invariant After(items, Unframe(result[cursor.position..])) == Unframe(result)
      invariant values == Nulled(items)
      decreases |result| - cursor.position
    {
      ghost var pos := cursor.position;
      ReadAtUnframe(result, pos, items, Unframe(result));
      var next := cursor.Next();
      if next.Err? {
        return Err(next.error);
      }
      items := items + [result[pos + 4..cursor.position]];
      values := values + [next.value];
    }
    assert result[cursor.position..] == [];
    assert items + [] == items;
    r := Ok(values);
  }

  /**
   * The legacy drain loop: entries of size 0 are skipped, the others
   * collected; an entry that does not read ends it with a RuntimeException.
   */
  method DrainPresent(result: Bytes) returns (r: Result<seq<Bytes>, Thrown>)
    ensures r == DecodePresent(result)
  {
    var cursor := new ValueCursor(result);
    var values: seq<Bytes> := [];
    ghost var items: seq<Bytes> := [];
    StartOfBuffer(result);
    while cursor.HasNext()
      invariant cursor.buffer == result && cursor.position <= |result|
      invariant After(items, Unframe(result[cursor.position..])) == Unframe(result)
      invariant values == NonEmpty(items)
      decreases |result| - cursor.position
    {
      ghost var pos := cursor.position;
      ReadAtUnframe(result, pos, items, Unframe(result));
      var next := cursor.Next();
      if next.Err? {
        return Err(next.error);
      }
      ghost var item := result[pos + 4..cursor.position];
      NonEmptySnoc(items, item);
      items := items + [item];
      if next.value.Some? {
        values := values + [next.value.value];
      }
    }
    assert result[cursor.position..] == [];
    assert items + [] == items;
    r := Ok(values);
  }

  /** Each non-null value decoded as Java `new String(bytes, UTF_8)` does; a failure is passed on. */
  function DecodeStrings(values: Result<seq<Option<Bytes>>, Thrown>): (r: Result<seq<Option<string>>, Thrown>)
    ensures r.Ok? <==> values.Ok?
    ensures r.Err? ==> r.error == values.error
    ensures r.Ok? ==> |r.value| == |values.value|
    ensures r.Ok? ==> forall i :: 0 <= i < |r.value| ==>
      && (r.value[i].None? <==> values.value[i].None?)
      && (values.value[i].Some? ==> r.value[i].value == Utf8DecodeLenient(values.value[i].value))
  {
    match values
    case Err(e) => Err(e)
    case Ok(vs) => Ok(seq(|vs|, i requires 0 <= i < |vs| => if vs[i].None? then None else Some(Utf8DecodeLenient(vs[i].value))))
  }

  /** Values stored as the UTF-8 bytes of strings read back as those strings, in place. */
  lemma DecodeStringsOfUtf8(strings: seq<string>, values: seq<Option<Bytes>>)
    requires |values| == |strings| && forall i :: 0 <= i < |values| ==> values[i] == Some(Utf8(strings[i]))
    ensures DecodeStrings(Ok(values)).Ok? && |DecodeStrings(Ok(values)).value| == |strings|
    ensures forall i :: 0 <= i < |strings| ==> DecodeStrings(Ok(values)).value[i] == Some(strings[i])
  {
    forall i | 0 <= i < |strings|
      ensures Utf8DecodeLenient(Utf8(strings[i])) == strings[i]
    {
      Utf8LenientRoundTrip(strings[i]);
    }
  }
}
