/**
 * The batch-read wire framing shared by the native side and the clients:
 * a sequence of items, each written as its length (i32, little-endian)
 * followed by its bytes.
 */
module SizePrefixed {
  import opened Wrappers
  import opened ByteCodec

  /** One framed item. */
  function Entry(x: Bytes): (r: Bytes)
    ensures |r| == 4 + |x| && r[..4] == I32Le(|x|) && r[4..] == x
  {
    I32Le(|x|) + x
  }

  /** The items framed one after another, in order. */
  function Frame(items: seq<Bytes>): Bytes
    decreases |items|
  {
    if items == [] then [] else Entry(items[0]) + Frame(items[1..])
  }

  /**
   * Reads items until the buffer is exhausted; None when a length prefix is
   * cut short, is negative, or runs past the end.
   */
  function Unframe(b: Bytes): (r: Option<seq<Bytes>>)
    decreases |b|
  {
    if b == [] then Some([])
    else if |b| < 4 then None
    else
      var n := I32FromLe(b[..4]);
      if n < 0 || 4 + n > |b| then None
      else match Unframe(b[4 + n..])
        case None => None
        case Some(rest) => Some([b[4..4 + n]] + rest)
  }

  /** Items that fit an i32 length. */
  predicate Framable(items: seq<Bytes>)
  {
    forall i :: 0 <= i < |items| ==> |items[i]| <= I32_MAX
  }

  lemma {:induction false} FrameAppend(a: seq<Bytes>, b: seq<Bytes>)
    ensures Frame(a + b) == Frame(a) + Frame(b)
    decreases |a|
  {
    if a == [] {
      assert a + b == b;
    } else {
      assert (a + b)[0] == a[0] && (a + b)[1..] == a[1..] + b;
      FrameAppend(a[1..], b);
    }
  }

  /** Framing then reading gives the items back. */
  lemma {:induction false} UnframeFrame(items: seq<Bytes>)
    requires Framable(items)
    ensures Unframe(Frame(items)) == Some(items)
    decreases |items|
  {
    if items != [] {
      var x := items[0];
      var b := Frame(items);
      assert b == Entry(x) + Frame(items[1..]);
      I32RoundTrip(|x|);
      assert b[..4] == I32Le(|x|);
      assert b[4..4 + |x|] == x;
      assert b[4 + |x|..] == Frame(items[1..]);
      assert forall i :: 0 <= i < |items[1..]| ==> items[1..][i] == items[i + 1];
      UnframeFrame(items[1..]);
      assert [x] + items[1..] == items;
    }
  }

  /** Reading is exact: a buffer that reads as items is their framing, byte for byte. */
  lemma {:induction false} FrameUnframe(b: Bytes)
    requires Unframe(b).Some?
    ensures Frame(Unframe(b).value) == b && Framable(Unframe(b).value)
    decreases |b|
  {
    if b != [] {
      var n := I32FromLe(b[..4]);
      var x, tail := b[4..4 + n], b[4 + n..];
      var rest := Unframe(tail).value;
      assert Unframe(b).value == [x] + rest;
      FrameUnframe(tail);
      I32LeOfFromLe(b[..4]);
      EntryOfPrefix(b, n);
      FrameCons(x, rest);
    }
  }

  /** The first `4 + n` bytes are the entry of the n bytes after the prefix that reads as n. */
  lemma EntryOfPrefix(b: Bytes, n: int)
    requires 4 <= 4 + n <= |b| && I32Le(I32FromLe(b[..4])) == b[..4] && n == I32FromLe(b[..4])
    ensures Entry(b[4..4 + n]) + b[4 + n..] == b
  {
    assert b == b[..4] + b[4..4 + n] + b[4 + n..];
  }

  lemma FrameCons(x: Bytes, rest: seq<Bytes>)
    ensures Frame([x] + rest) == Entry(x) + Frame(rest)
  {
    assert ([x] + rest)[0] == x && ([x] + rest)[1..] == rest;
  }

  /** `keys` followed by the items `rest` reads as, or None when it does not read. */
  function After(keys: seq<Bytes>, rest: Option<seq<Bytes>>): Option<seq<Bytes>>
  {
    match rest
    case None => None
    case Some(items) => Some(keys + items)
  }

  /** Reading one item off the front of the rest of a buffer, the items before it being `keys`. */
  lemma ReadOneItem(b: Bytes, i: nat, keys: seq<Bytes>, total: Option<seq<Bytes>>)
    requires i + 4 <= |b| && After(keys, Unframe(b[i..])) == total
    requires 0 <= I32FromLe(b[i..i + 4]) && i + 4 + I32FromLe(b[i..i + 4]) <= |b|
    ensures
      var n := I32FromLe(b[i..i + 4]);
      After(keys + [b[i + 4..i + 4 + n]], Unframe(b[i + 4 + n..])) == total
  {
    var n := I32FromLe(b[i..i + 4]);
    var rest := b[i..];
    var id, tail := b[i + 4..i + 4 + n], b[i + 4 + n..];
    assert Unframe(rest) == After([id], Unframe(tail)) by {
      assert rest[..4] == b[i..i + 4] && rest[4..4 + n] == id && rest[4 + n..] == tail;
    }
    match Unframe(tail) {
      case None =>
      case Some(items) =>
        assert keys + ([id] + items) == keys + [id] + items;
    }
  }

  /** The items' total framed length, `Σ (4 + |item|)`. */
  function Capacity(items: seq<Bytes>): (n: nat)
    ensures n == |Frame(items)|
    decreases |items|
  {
    if items == [] then 0 else 4 + |items[0]| + Capacity(items[1..])
  }

  /** `ByteBuffer.put`: `data` is written at `pos`, the bytes before it are kept. */
  method Put(buf: array<Byte>, pos: nat, data: Bytes)
    requires pos + |data| <= buf.Length
    modifies buf
    ensures buf[..pos + |data|] == old(buf[..pos]) + data
  {
    ghost var before := buf[..pos];
    var j := 0;
    while j < |data|
      invariant j <= |data|
      invariant buf[..pos + j] == before + data[..j]
    {
      buf[pos + j] := data[j];
      assert buf[..pos + j + 1] == buf[..pos + j] + [data[j]];
      assert data[..j + 1] == data[..j] + [data[j]];
      j := j + 1;
    }
    assert data[..j] == data;
  }

  lemma FrameSnoc(items: seq<Bytes>, i: nat)
    requires i < |items|
    ensures Frame(items[..i + 1]) == Frame(items[..i]) + I32Le(|items[i]|) + items[i]
  {
    assert items[..i + 1] == items[..i] + [items[i]];
    FrameAppend(items[..i], [items[i]]);
    FrameCons(items[i], []);
    assert [items[i]] + [] == [items[i]];
  }

  /** A prefix takes no more room than the whole. */
  lemma CapacityPrefix(items: seq<Bytes>, i: nat)
    requires i <= |items|
    ensures Capacity(items[..i]) <= Capacity(items)
  {
    assert items == items[..i] + items[i..];
    FrameAppend(items[..i], items[i..]);
  }
}
