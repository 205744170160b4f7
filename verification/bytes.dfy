/**
 * Byte-level encodings shared by the index engine and the clients:
 * little-endian fixed-width integers and the unsigned base-128 varint
 * ("Base 128 Varints" of the Protocol Buffers encoding guide).
 */
module ByteCodec {
  import opened Wrappers

  type Byte = b: int | 0 <= b < 256
  type Bytes = seq<Byte>

  const U16_MAX: int := 0xFFFF
  const U32_MAX: int := 0xFFFF_FFFF
  const TWO_32: int := 0x1_0000_0000
  const I32_MIN: int := -0x8000_0000
  const I32_MAX: int := 0x7FFF_FFFF
  const TWO_64: int := 0x1_0000_0000_0000_0000
  const I64_MIN: int := -0x8000_0000_0000_0000
  const I64_MAX: int := 0x7FFF_FFFF_FFFF_FFFF

  /** `(n as u16).to_le_bytes()` for an n that fits. */
  function U16Le(n: int): (r: Bytes)
    requires 0 <= n <= U16_MAX
    ensures |r| == 2 && U16FromLe(r) == n
  {
    [n % 256, n / 256]
  }

  /** `u16::from_le_bytes`. */
  function U16FromLe(b: Bytes): (n: int)
    requires |b| == 2
    ensures 0 <= n <= U16_MAX
  {
    b[0] as int + 256 * (b[1] as int)
  }

  /** `(n as u32).to_le_bytes()`, the low 32 bits of n in little-endian order. */
  function U32Le(n: int): (r: Bytes)
    ensures |r| == 4 && U32FromLe(r) == n % TWO_32
  {
    var m := n % TWO_32;
    var q1 := m / 256;
    var q2 := q1 / 256;
    [m % 256, q1 % 256, q2 % 256, q2 / 256]
  }

  /** `u32::from_le_bytes`. */
  function U32FromLe(b: Bytes): (n: int)
    requires |b| == 4
    ensures 0 <= n < TWO_32
  {
    b[0] as int + 256 * (b[1] as int) + 0x1_0000 * (b[2] as int) + 0x100_0000 * (b[3] as int)
  }

  /**
   * `(n as i32).to_le_bytes()` (Rust) or `ByteBuffer.putInt` in little-endian
   * order (Java): the cast keeps the low 32 bits, so the bytes are those of
   * n modulo 2^32.
   */
  function I32Le(n: int): (r: Bytes)
    ensures |r| == 4
  {
    U32Le(n)
  }

  /** `i32::from_le_bytes` / `ByteBuffer.getInt`: two's-complement reading. */
  function I32FromLe(b: Bytes): (n: int)
    requires |b| == 4
    ensures I32_MIN <= n <= I32_MAX
  {
    var u := U32FromLe(b);
    if u <= I32_MAX then u else u - TWO_32
  }

  lemma I32RoundTrip(n: int)
    requires I32_MIN <= n <= I32_MAX
    ensures I32FromLe(I32Le(n)) == n
  {
  }

  /** `ByteBuffer.putLong` in little-endian order: the low 32 bits, then the high 32 bits. */
  function I64Le(n: int): (r: Bytes)
    ensures |r| == 8
  {
    var m := n % TWO_64;
    U32Le(m % TWO_32) + U32Le(m / TWO_32)
  }

  /** `ByteBuffer.getLong` in little-endian order: two's-complement reading. */
  function I64FromLe(b: Bytes): (n: int)
    requires |b| == 8
    ensures I64_MIN <= n <= I64_MAX
  {
    var u := U32FromLe(b[..4]) + TWO_32 * U32FromLe(b[4..]);
    if u <= I64_MAX then u else u - TWO_64
  }

  /** A 64-bit number is its high half times 2^32 plus its low half. */
  lemma SplitHalves(m: int)
    requires 0 <= m < TWO_64
    ensures m == TWO_32 * (m / TWO_32) + m % TWO_32 && 0 <= m / TWO_32 < TWO_32
  {
  }

  /** The two halves read back from their eight bytes. */
  lemma ReadHalves(lo: int, hi: int)
    requires 0 <= lo < TWO_32 && 0 <= hi < TWO_32
    ensures var b := U32Le(lo) + U32Le(hi); U32FromLe(b[..4]) == lo && U32FromLe(b[4..]) == hi
  {
    var b := U32Le(lo) + U32Le(hi);
    assert b[..4] == U32Le(lo) && b[4..] == U32Le(hi);
  }

  lemma I64RoundTrip(n: int)
    requires I64_MIN <= n <= I64_MAX
    ensures I64FromLe(I64Le(n)) == n
  {
    var m := n % TWO_64;
    assert m == if n >= 0 then n else n + TWO_64;
    var lo, hi := m % TWO_32, m / TWO_32;
    SplitHalves(m);
    ReadHalves(lo, hi);
    var b := U32Le(lo) + U32Le(hi);
    assert I64Le(n) == b;
    assert U32FromLe(b[..4]) + TWO_32 * U32FromLe(b[4..]) == m;
  }

  /** Java `int` (and Go `int32`) arithmetic: n wrapped into the i32 range. */
  function I32Wrap(n: int): (r: int)
    ensures I32_MIN <= r <= I32_MAX
    ensures I32_MIN <= n <= I32_MAX ==> r == n
  {
    (n - I32_MIN) % TWO_32 + I32_MIN
  }

  /** Wrapping after every addition is wrapping once at the end. */
  lemma I32WrapAdd(a: int, b: int)
    ensures I32Wrap(I32Wrap(a) + b) == I32Wrap(a + b)
  {
    var q := (a - I32_MIN) / TWO_32;
    var y := a + b - I32_MIN;
    assert I32Wrap(a) + b - I32_MIN == y - q * TWO_32;
    assert (y - q * TWO_32) % TWO_32 == y % TWO_32;
  }

  /** The four bytes of -1, written by the index for a missing value. */
  const NONE_SIZE: Bytes := [255, 255, 255, 255]

  lemma NoneSizeIsMinusOne()
    ensures I32Le(-1) == NONE_SIZE && I32FromLe(NONE_SIZE) == -1
  {
  }

  /** Splitting off the low byte of `lo + 256 * hi`. */
  lemma LowByte(lo: int, hi: int)
    requires 0 <= lo < 256 && 0 <= hi
    ensures (lo + 256 * hi) / 256 == hi && (lo + 256 * hi) % 256 == lo
  {
  }

  /** Four bytes read as a u32 and written back are the same four bytes. */
  lemma U32LeOfFromLe(b: Bytes)
    requires |b| == 4
    ensures U32Le(U32FromLe(b)) == b
  {
    var q2: int := b[2] as int + 256 * (b[3] as int);
    var q1: int := b[1] as int + 256 * q2;
    assert U32FromLe(b) == b[0] + 256 * q1;
    LowByte(b[0], q1);
    LowByte(b[1], q2);
    LowByte(b[2], b[3]);
  }

  /** The same for the two's-complement reading. */
  lemma I32LeOfFromLe(b: Bytes)
    requires |b| == 4
    ensures I32Le(I32FromLe(b)) == b
  {
    U32LeOfFromLe(b);
  }

  /** Base-128 varint encoding of n, least significant group first. */
  function Varint(n: nat): (r: Bytes)
    ensures 1 <= |r|
    decreases n
  {
    if n < 128 then [n] else [n % 128 + 128] + Varint(n / 128)
  }

  /** Number of bytes of `Varint(n)` (`required_space`). */
  function VarintSpace(n: nat): (k: nat)
    decreases n
  {
    if n < 128 then 1 else 1 + VarintSpace(n / 128)
  }

  lemma {:induction false} VarintSpaceIsLength(n: nat)
    ensures |Varint(n)| == VarintSpace(n)
    decreases n
  {
    if n >= 128 {
      VarintSpaceIsLength(n / 128);
    }
  }

  function Pow128(k: nat): nat
  {
    if k == 0 then 1 else 128 * Pow128(k - 1)
  }

  lemma {:induction false} VarintSpaceBound(n: nat, k: nat)
    requires 1 <= k && n < Pow128(k)
    ensures VarintSpace(n) <= k
    decreases k
  {
    if n >= 128 {
      assert k > 1;
      VarintSpaceBound(n / 128, k - 1);
    }
  }

  /** A 32-bit value never needs more than five varint bytes. */
  lemma VarintSpaceOfU32(n: nat)
    requires n <= U32_MAX
    ensures VarintSpace(n) <= 5
  {
    assert Pow128(5) == 0x8_0000_0000;
    VarintSpaceBound(n, 5);
  }

  /**
   * Reading of a u64 varint that may start `depth` bytes into a value:
   * a byte with a clear high bit ends the value; the tenth byte must end
   * it. Returns the accumulated value and the number of bytes read.
   */
  function DecodeLeb(s: Bytes, depth: nat): (r: Option<(nat, nat)>)
    requires depth <= 9
    ensures r.Some? ==> 1 <= r.value.1 <= |s| && depth + r.value.1 <= 10
    decreases |s|
  {
    if |s| == 0 then None
    else if s[0] < 128 then Some((s[0], 1))
    else if depth == 9 then None
    else
      match DecodeLeb(s[1..], depth + 1)
      case None => None
      case Some(p) => Some((s[0] - 128 + 128 * p.0, p.1 + 1))
  }

  /**
   * `u32::decode_var`: the u64 varint reading narrowed with `as u32`,
   * so the value is kept modulo 2^32.
   */
  function DecodeVarintU32(s: Bytes): (r: Option<(nat, nat)>)
    ensures r.Some? ==> r.value.0 < TWO_32 && 1 <= r.value.1 <= |s|
  {
    match DecodeLeb(s, 0)
    case None => None
    case Some(p) => Some((p.0 % TWO_32, p.1))
  }

  lemma {:induction false} DecodeLebOfVarint(n: nat, rest: Bytes, depth: nat)
    requires depth <= 9 && depth + VarintSpace(n) <= 10
    ensures DecodeLeb(Varint(n) + rest, depth) == Some((n, VarintSpace(n)))
    decreases n
  {
    var s := Varint(n) + rest;
    if n >= 128 {
      assert s[1..] == Varint(n / 128) + rest;
      DecodeLebOfVarint(n / 128, rest, depth + 1);
    }
  }

  /** Decoding what `Varint` wrote gives back the value and its length. */
  lemma VarintRoundTrip(n: nat, rest: Bytes)
    requires n <= U32_MAX
    ensures DecodeVarintU32(Varint(n) + rest) == Some((n, |Varint(n)|))
  {
    VarintSpaceOfU32(n);
    VarintSpaceIsLength(n);
    DecodeLebOfVarint(n, rest, 0);
  }

  /** A successful reading depends only on the bytes it consumed. */
  lemma {:induction false} DecodeLebPrefix(s: Bytes, t: Bytes, depth: nat)
    requires depth <= 9
    requires DecodeLeb(s, depth).Some?
    requires DecodeLeb(s, depth).value.1 <= |t|
    requires s[..DecodeLeb(s, depth).value.1] == t[..DecodeLeb(s, depth).value.1]
    ensures DecodeLeb(t, depth) == DecodeLeb(s, depth)
    decreases |s|
  {
    var k := DecodeLeb(s, depth).value.1;
    assert s[0] == s[..k][0] == t[..k][0] == t[0];
    if s[0] >= 128 {
      var k' := DecodeLeb(s[1..], depth + 1).value.1;
      assert s[1..][..k'] == s[..k][1..] && t[1..][..k'] == t[..k][1..];
      DecodeLebPrefix(s[1..], t[1..], depth + 1);
    }
  }

  lemma DecodeVarintPrefix(s: Bytes, t: Bytes)
    requires DecodeVarintU32(s).Some?
    requires DecodeVarintU32(s).value.1 <= |t|
    requires s[..DecodeVarintU32(s).value.1] == t[..DecodeVarintU32(s).value.1]
    ensures DecodeVarintU32(t) == DecodeVarintU32(s)
  {
    DecodeLebPrefix(s, t, 0);
  }
}
