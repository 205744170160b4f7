/**
 * The native batch read behind `getBatchBytesFieldValue`: a buffer of
 * size-prefixed document ids goes in, and a buffer of size-prefixed values
 * comes out, one entry per id whose value is present and non-empty, in the
 * order of the ids. The index read is a parameter: `fetch` gives the bytes
 * the index appends for an id, `None` when it has none.
 */
module JniBatch {
  import opened Wrappers
  import opened ByteCodec
  import opened SizePrefixed

  /** The placeholder written before a value while its length is unknown. */
  const LENGTH: Bytes := [0, 0, 0, 0]

  /** The values the ids select, in id order, skipping absent and empty ones. */
  function Present(ids: seq<Bytes>, fetch: Bytes -> Option<Bytes>): (r: seq<Bytes>)
    ensures |r| <= |ids|
    ensures forall i :: 0 <= i < |r| ==> r[i] != []
    decreases |ids|
  {
    if ids == [] then []
    else
      var v := fetch(ids[|ids| - 1]);
      Present(ids[..|ids| - 1], fetch) + (if v.Some? && v.value != [] then [v.value] else [])
  }

  /**
   * One round of the loop: the placeholder goes in, the value is appended
   * after it, the placeholder is overwritten with the value's length, and
   * for an empty value the placeholder is cut off again.
   */
  function AppendValue(result: Bytes, value: Option<Bytes>): (r: Bytes)
    ensures value.Some? && value.value != [] ==> r == result + Entry(value.value)
    ensures value.None? || value.value == [] ==> r == result
  {
    var withPlaceholder := result + LENGTH;
    var appended := if value.Some? then value.value else [];
    var buffer := withPlaceholder + appended;
    var valueLen := |appended|;
    var end := |buffer| - valueLen;
    var start := end - 4;
    var patched := buffer[..start] + I32Le(valueLen) + buffer[end..];
    assert buffer[..start] == result && buffer[end..] == appended;
    if valueLen == 0 then patched[..start] else patched
  }

  lemma PresentSnoc(ids: seq<Bytes>, id: Bytes, fetch: Bytes -> Option<Bytes>)
    ensures Present(ids + [id], fetch) ==
      Present(ids, fetch) + (if fetch(id).Some? && fetch(id).value != [] then [fetch(id).value] else [])
  {
    var all := ids + [id];
    assert all[..|all| - 1] == ids && all[|all| - 1] == id;
  }

  /** Framing one more present value extends the framing of the earlier ones. */
  lemma PresentStep(ids: seq<Bytes>, id: Bytes, fetch: Bytes -> Option<Bytes>)
    ensures Frame(Present(ids + [id], fetch)) == AppendValue(Frame(Present(ids, fetch)), fetch(id))
  {
    PresentSnoc(ids, id, fetch);
    var v := fetch(id);
    var before := Present(ids, fetch);
    if v.Some? && v.value != [] {
      FrameAppend(before, [v.value]);
      FrameCons(v.value, []);
      assert [v.value] + [] == [v.value];
    } else {
      assert before + [] == before;
    }
  }

  /** Before the first id nothing has been read. */
  lemma ReadStart(b: Bytes)
    ensures After([], Unframe(b[0..])) == Unframe(b)
  {
    assert b[0..] == b;
    match Unframe(b) {
      case None =>
      case Some(items) => assert [] + items == items;
    }
  }

  /** The entry at `i` cannot be read: its length prefix is cut short, negative, or overruns. */
  predicate Unreadable(b: Bytes, i: nat)
    requires i < |b|
  {
    i + 4 > |b| || I32FromLe(b[i..i + 4]) < 0 || i + 4 + I32FromLe(b[i..i + 4]) > |b|
  }

  /** An entry that cannot be read means the ids do not parse. */
  lemma UnreadableFails(b: Bytes, i: nat, keys: seq<Bytes>, total: Option<seq<Bytes>>)
    requires i < |b| && After(keys, Unframe(b[i..])) == total && Unreadable(b, i)
    ensures total.None?
  {
    var rest := b[i..];
    if i + 4 <= |b| {
      assert rest[..4] == b[i..i + 4];
    }
  }

  /** Reading the id at `i`, which ends at `end`, moves one item from what is left to what was read. */
  lemma ReadIdAt(b: Bytes, i: nat, end: nat, id: Bytes, keys: seq<Bytes>, total: Option<seq<Bytes>>)
    requires i + 4 <= |b| && After(keys, Unframe(b[i..])) == total
    requires 0 <= I32FromLe(b[i..i + 4]) && end == i + 4 + I32FromLe(b[i..i + 4]) <= |b| && id == b[i + 4..end]
    ensures After(keys + [id], Unframe(b[end..])) == total
  {
    ReadOneItem(b, i, keys, total);
  }

  /** The result after one more id is the framing of the values of the ids read so far. */
  lemma ResultStep(keys: seq<Bytes>, id: Bytes, fetch: Bytes -> Option<Bytes>, result: Bytes, next: Bytes)
    requires result == Frame(Present(keys, fetch)) && next == AppendValue(result, fetch(id))
    ensures next == Frame(Present(keys + [id], fetch))
  {
    PresentStep(keys, id, fetch);
  }

  /** Once every id is read, the ids read are all of them. */
  lemma ReadEnd(b: Bytes, keys: seq<Bytes>, total: Option<seq<Bytes>>)
    requires After(keys, Unframe(b[|b|..])) == total
    ensures total == Some(keys)
  {
    assert b[|b|..] == [];
    assert keys + [] == keys;
  }

  /**
   * `getBatchBytesFieldValue`: no ids gives null; ids that do not parse as
   * size-prefixed entries panic; otherwise the result frames the present,
   * non-empty values of the ids, in their order.
   */
  method GetBatchBytesFieldValue(documentIds: Bytes, fetch: Bytes -> Option<Bytes>) returns (r: Outcome<Option<Bytes>>)
    ensures documentIds == [] ==> r == Returned(None)
    ensures documentIds != [] && Unframe(documentIds).None? ==> r == Panicked
    ensures documentIds != [] && Unframe(documentIds).Some? ==>
      r == Returned(Some(Frame(Present(Unframe(documentIds).value, fetch))))
  {
    if |documentIds| == 0 {
      return Returned(None);
    }
    var result: Bytes := [];
    ghost var keys: seq<Bytes> := [];
    ghost var total := Unframe(documentIds);
    var i := 0;
    ReadStart(documentIds);
    while i < |documentIds|
      invariant i <= |documentIds|
      invariant After(keys, Unframe(documentIds[i..])) == total
      invariant result == Frame(Present(keys, fetch))
      decreases |documentIds| - i
    {
      if i + 4 > |documentIds| {
        UnreadableFails(documentIds, i, keys, total);
        return Panicked;
      }
      var documentIdLen := I32FromLe(documentIds[i..i + 4]);
      var start := i + 4;
      if documentIdLen < 0 || start + documentIdLen > |documentIds| {
        UnreadableFails(documentIds, i, keys, total);
        return Panicked;
      }
      var end := start + documentIdLen;
      var documentId := documentIds[start..end];
      var nextResult := AppendValue(result, fetch(documentId));
      ReadIdAt(documentIds, i, end, documentId, keys, total);
      ResultStep(keys, documentId, fetch, result, nextResult);
      i, keys, result := end, keys + [documentId], nextResult;
    }
    ReadEnd(documentIds, keys, total);
    return Returned(Some(result));
  }

  /**
   * A client that reads the response back gets exactly the present values,
   * provided each fits the i32 length prefix.
   */
  lemma ResponseReadsBack(ids: seq<Bytes>, fetch: Bytes -> Option<Bytes>)
    requires Framable(Present(ids, fetch))
    ensures Unframe(Frame(Present(ids, fetch))) == Some(Present(ids, fetch))
  {
    UnframeFrame(Present(ids, fetch));
  }
}
