/**
 * Text helpers shared by the clients and the gateway: UTF-8, splitting on
 * a separator character, ASCII case folding, decimal rendering and parsing.
 */
module Text {
  import opened Wrappers
  import opened ByteCodec

  // ---------------------------------------------------------------- UTF-8

  /** The UTF-8 encoding of one Unicode scalar value. */
  function Utf8Char(c: char): (r: Bytes)
    ensures 1 <= |r| <= 4
  {
    var n := c as int;
    if n < 0x80 then [n]
    else if n < 0x800 then [0xC0 + n / 64, 0x80 + n % 64]
    else if n < 0x1_0000 then [0xE0 + n / 0x1000, 0x80 + (n / 64) % 64, 0x80 + n % 64]
    else [0xF0 + n / 0x4_0000, 0x80 + (n / 0x1000) % 64, 0x80 + (n / 64) % 64, 0x80 + n % 64]
  }

  /** `String.getBytes(UTF_8)`, `str.encode('utf-8')`, `ByteString.copyFromUtf8`. */
  function Utf8(s: string): (r: Bytes)
    ensures |r| >= |s|
    ensures r == [] <==> s == []
  {
    if s == [] then [] else Utf8Char(s[0]) + Utf8(s[1..])
  }

  lemma {:induction false} Utf8Append(a: string, b: string)
    ensures Utf8(a + b) == Utf8(a) + Utf8(b)
    decreases |a|
  {
    if a != [] {
      assert (a + b)[0] == a[0] && (a + b)[1..] == a[1..] + b;
      Utf8Append(a[1..], b);
    } else {
      assert a + b == b;
    }
  }

  predicate IsContinuation(b: Byte) { 0x80 <= b < 0xC0 }

  /** Strict decoding of the first character: rejects overlong forms and surrogates. */
  function DecodeChar(b: Bytes): (r: Option<(char, nat)>)
    requires |b| > 0
    ensures r.Some? ==> 1 <= r.value.1 <= |b|
  {
    var b0 := b[0] as int;
    if b0 < 0x80 then Some((b0 as char, 1))
    else if 0xC0 <= b0 < 0xE0 && |b| >= 2 && IsContinuation(b[1]) then
      var cp := (b0 - 0xC0) * 64 + (b[1] as int - 0x80);
      if cp >= 0x80 then Some((cp as char, 2)) else None
    else if 0xE0 <= b0 < 0xF0 && |b| >= 3 && IsContinuation(b[1]) && IsContinuation(b[2]) then
      var cp := (b0 - 0xE0) * 0x1000 + (b[1] as int - 0x80) * 64 + (b[2] as int - 0x80);
      if cp >= 0x800 && !(0xD800 <= cp < 0xE000) then Some((cp as char, 3)) else None
    else if 0xF0 <= b0 < 0xF8 && |b| >= 4 && IsContinuation(b[1]) && IsContinuation(b[2]) && IsContinuation(b[3]) then
      var cp := (b0 - 0xF0) * 0x4_0000 + (b[1] as int - 0x80) * 0x1000 + (b[2] as int - 0x80) * 64 + (b[3] as int - 0x80);
      if 0x1_0000 <= cp < 0x11_0000 then Some((cp as char, 4)) else None
    else None
  }

  /** Strict UTF-8 decoding (`bytes.decode('utf-8')`); None where Python raises. */
  function Utf8Decode(b: Bytes): Option<string>
    decreases |b|
  {
    if b == [] then Some("")
    else
      match DecodeChar(b)
      case None => None
      case Some(p) =>
        match Utf8Decode(b[p.1..])
        case None => None
        case Some(rest) => Some([p.0] + rest)
  }

  lemma DecodeCharOfUtf8Char(c: char, rest: Bytes)
    ensures DecodeChar(Utf8Char(c) + rest) == Some((c, |Utf8Char(c)|))
  {
    var n := c as int;
    if n < 0x80 {
    } else if n < 0x800 {
      Decode2(c, rest);
    } else if n < 0x1_0000 {
      Decode3(c, rest);
    } else {
      Decode4(c, rest);
    }
  }

  lemma Decode2(c: char, rest: Bytes)
    requires 0x80 <= c as int < 0x800
    ensures DecodeChar(Utf8Char(c) + rest) == Some((c, 2))
  {
    var n := c as int;
    var b := Utf8Char(c) + rest;
    assert b[0] == 0xC0 + n / 64 && b[1] == 0x80 + n % 64;
    assert (n / 64) * 64 + n % 64 == n;
  }

  lemma Decode3(c: char, rest: Bytes)
    requires 0x800 <= c as int < 0x1_0000
    ensures DecodeChar(Utf8Char(c) + rest) == Some((c, 3))
  {
    var n := c as int;
    var b := Utf8Char(c) + rest;
    var hi, mid, lo := n / 0x1000, (n / 64) % 64, n % 64;
    assert hi * 0x1000 + mid * 64 + lo == n by {
      assert n / 64 == hi * 64 + mid;
    }
    assert b[0] == 0xE0 + hi && b[1] == 0x80 + mid && b[2] == 0x80 + lo;
  }

  lemma Decode4(c: char, rest: Bytes)
    requires 0x1_0000 <= c as int
    ensures DecodeChar(Utf8Char(c) + rest) == Some((c, 4))
  {
    var n := c as int;
    var b := Utf8Char(c) + rest;
    FourGroups(n);
    assert b[0] == 0xF0 + n / 0x4_0000 && b[1] == 0x80 + (n / 0x1000) % 64
      && b[2] == 0x80 + (n / 64) % 64 && b[3] == 0x80 + n % 64;
    DecodeFour(b, n);
  }

  /** A code point is its top three bits and three groups of six, as the four-byte form splits it. */
  lemma FourGroups(n: nat)
    ensures (n / 0x4_0000) * 0x4_0000 + ((n / 0x1000) % 64) * 0x1000 + ((n / 64) % 64) * 64 + n % 64 == n
  {
    var top, hi, mid, lo := n / 0x4_0000, (n / 0x1000) % 64, (n / 64) % 64, n % 64;
    assert n / 64 == (n / 0x1000) * 64 + mid;
    assert n / 0x1000 == top * 64 + hi;
  }

  /** A four-byte sequence holding the code point `cp` decodes to it. */
  lemma DecodeFour(b: Bytes, cp: int)
    requires |b| >= 4 && 0xF0 <= b[0] < 0xF8
    requires IsContinuation(b[1]) && IsContinuation(b[2]) && IsContinuation(b[3])
    requires cp == (b[0] as int - 0xF0) * 0x4_0000 + (b[1] as int - 0x80) * 0x1000 + (b[2] as int - 0x80) * 64 + (b[3] as int - 0x80)
    requires 0x1_0000 <= cp < 0x11_0000 && !(0xD800 <= cp < 0xE000)
    ensures DecodeChar(b) == Some((cp as char, 4))
  {
  }

  /** Decoding an encoded string gives the string back. */
  lemma {:induction false} Utf8RoundTrip(s: string)
    ensures Utf8Decode(Utf8(s)) == Some(s)
    decreases |s|
  {
    if s != [] {
      var b := Utf8(s);
      DecodeCharOfUtf8Char(s[0], Utf8(s[1..]));
      assert b[|Utf8Char(s[0])|..] == Utf8(s[1..]);
      Utf8RoundTrip(s[1..]);
      assert [s[0]] + s[1..] == s;
    }
  }

  /** The character substituted for input that does not decode. */
  const REPLACEMENT: char := '\U{FFFD}'

  /**
   * Decoding with replacement (Java `new String(bytes, UTF_8)`): a byte
   * that starts no well-formed character becomes U+FFFD and decoding
   * resumes after it. Well-formed input decodes as strictly.
   */
  function Utf8DecodeLenient(b: Bytes): (r: string)
    ensures Utf8Decode(b).Some? ==> r == Utf8Decode(b).value
    decreases |b|
  {
    if b == [] then ""
    else
      match DecodeChar(b)
      case None => [REPLACEMENT] + Utf8DecodeLenient(b[1..])
      case Some(p) => [p.0] + Utf8DecodeLenient(b[p.1..])
  }

  /** Decoding with replacement also gives an encoded string back. */
  lemma Utf8LenientRoundTrip(s: string)
    ensures Utf8DecodeLenient(Utf8(s)) == s
  {
    Utf8RoundTrip(s);
  }

  // ------------------------------------------------------------ splitting

  /** Go `strings.Split` / Python `str.split(sep)`: every piece, empty ones included. */
  function Split(s: string, sep: char): (r: seq<string>)
    ensures |r| >= 1
    ensures forall i :: 0 <= i < |r| ==> sep !in r[i]
    decreases |s|
  {
    if |s| == 0 then [""]
    else if s[0] == sep then [""] + Split(s[1..], sep)
    else
      var t := Split(s[1..], sep);
      [[s[0]] + t[0]] + t[1..]
  }

  function Join(parts: seq<string>, sep: char): string
    requires |parts| >= 1
    decreases |parts|
  {
    if |parts| == 1 then parts[0] else parts[0] + [sep] + Join(parts[1..], sep)
  }

  /** Splitting loses nothing: joining the pieces back gives the input. */
  lemma {:induction false} SplitJoin(s: string, sep: char)
    ensures Join(Split(s, sep), sep) == s
    decreases |s|
  {
    if |s| > 0 {
      SplitJoin(s[1..], sep);
      var t := Split(s[1..], sep);
      if s[0] != sep {
        if |t| == 1 {
          assert [s[0]] + t[0] == s;
        } else {
          var r := Split(s, sep);
          assert r[1..] == t[1..];
          assert Join(r, sep) == [s[0]] + t[0] + [sep] + Join(t[1..], sep);
        }
      }
    }
  }

  /** A text without the separator is a single piece. */
  lemma {:induction false} SplitNoSep(s: string, sep: char)
    requires sep !in s
    ensures Split(s, sep) == [s]
    decreases |s|
  {
    if |s| > 0 {
      SplitNoSep(s[1..], sep);
      assert [s[0]] + s[1..] == s;
    }
  }

  /** A separator after a piece without one ends that piece. */
  lemma {:induction false} SplitCons(a: string, rest: string, sep: char)
    requires sep !in a
    ensures Split(a + [sep] + rest, sep) == [a] + Split(rest, sep)
    decreases |a|
  {
    var s := a + [sep] + rest;
    if |a| == 0 {
      assert s == [sep] + rest && s[1..] == rest;
    } else {
      assert s[1..] == a[1..] + [sep] + rest;
      SplitCons(a[1..], rest, sep);
      assert [a[0]] + a[1..] == a;
    }
  }

  /** A separator between two texts: the pieces of the first, then those of the second. */
  lemma {:induction false} SplitAppend(a: string, b: string, sep: char)
    ensures Split(a + [sep] + b, sep) == Split(a, sep) + Split(b, sep)
    decreases |a|
  {
    var s := a + [sep] + b;
    if |a| == 0 {
      assert s == [sep] + b && s[1..] == b;
    } else {
      assert s[1..] == a[1..] + [sep] + b;
      SplitAppend(a[1..], b, sep);
    }
  }

  /** Java `String.split` leaves a text whose last piece is not empty as `Split` does. */
  lemma JavaSplitOfNonEmptyLast(s: string, sep: char)
    requires Split(s, sep)[|Split(s, sep)| - 1] != ""
    ensures JavaSplit(s, sep) == Split(s, sep)
  {
    if sep !in s {
      SplitNoSep(s, sep);
    }
  }

  /** The first of Java's pieces is the text before the first separator. */
  lemma JavaSplitFirst(s: string, sep: char)
    requires |JavaSplit(s, sep)| > 0
    ensures JavaSplit(s, sep)[0] == BeforeFirst(s, sep)
  {
    if sep !in s {
      SplitNoSep(s, sep);
    }
  }


  function BeforeFirst(s: string, sep: char): (r: string)
    ensures r <= s && sep !in r
    ensures r == Split(s, sep)[0]
    decreases |s|
  {
    if |s| == 0 || s[0] == sep then "" else [s[0]] + BeforeFirst(s[1..], sep)
  }

  /** The text after the last separator. */
  function LastPiece(s: string, sep: char): string
  {
    var parts := Split(s, sep);
    parts[|parts| - 1]
  }

  function DropTrailingEmpty(parts: seq<string>): (r: seq<string>)
    ensures |r| <= |parts| && r == parts[..|r|]
    ensures |r| > 0 ==> r[|r| - 1] != ""
    ensures forall i :: |r| <= i < |parts| ==> parts[i] == ""
    decreases |parts|
  {
    if |parts| == 0 then []
    else if parts[|parts| - 1] == "" then DropTrailingEmpty(parts[..|parts| - 1])
    else parts
  }

  /**
   * Java `String.split` with a one-character pattern: a text without the
   * separator gives itself; otherwise the pieces, less trailing empty ones.
   */
  function JavaSplit(s: string, sep: char): (r: seq<string>)
    ensures forall i :: 0 <= i < |r| ==> sep !in r[i]
  {
    if sep !in s then [s] else DropTrailingEmpty(Split(s, sep))
  }

  // ----------------------------------------------------------- characters

  /** `s.contains(sub)` / `strings.Contains` / `sub in s`. */
  predicate Contains(s: string, sub: string)
    decreases |s|
  {
    sub <= s || (|s| > 0 && Contains(s[1..], sub))
  }

  /** A text lacking one of another's characters does not contain it. */
  lemma {:induction false} MissingChar(s: string, sub: string, c: char)
    requires c in sub && c !in s
    ensures !Contains(s, sub)
    decreases |s|
  {
    var k :| 0 <= k < |sub| && sub[k] == c;
    assert !(sub <= s) by {
      if k < |s| {
        assert s[k] != c;
      }
    }
    if |s| > 0 {
      MissingChar(s[1..], sub, c);
    }
  }

  /** ASCII case folding (the log-level and platform names are ASCII). */
  function LowerChar(c: char): char
  {
    if 'A' <= c <= 'Z' then (c as int + 32) as char else c
  }

  function Lower(s: string): (r: string)
    ensures |r| == |s|
    ensures forall i :: 0 <= i < |s| ==> r[i] == LowerChar(s[i])
  {
    seq(|s|, i requires 0 <= i < |s| => LowerChar(s[i]))
  }

  predicate IsDigit(c: char) { '0' <= c <= '9' }

  /** One or more ASCII digits (`\d+` with ASCII digits). */
  predicate IsDigits(s: string)
  {
    |s| > 0 && forall i :: 0 <= i < |s| ==> IsDigit(s[i])
  }

  function DigitsValue(s: string): (n: nat)
    requires forall i :: 0 <= i < |s| ==> IsDigit(s[i])
    decreases |s|
  {
    if |s| == 0 then 0
    else
      assert IsDigit(s[|s| - 1]);
      10 * DigitsValue(s[..|s| - 1]) + (s[|s| - 1] as int - '0' as int)
  }

  function DigitChar(d: nat): (c: char)
    requires d < 10
    ensures IsDigit(c) && c as int - '0' as int == d
  {
    ('0' as int + d) as char
  }

  /** Decimal rendering of a natural number. */
  function NatToString(n: nat): (r: string)
    ensures IsDigits(r)
    decreases n
  {
    if n < 10 then [DigitChar(n)] else NatToString(n / 10) + [DigitChar(n % 10)]
  }

  lemma {:induction false} NatToStringRoundTrip(n: nat)
    ensures DigitsValue(NatToString(n)) == n
    decreases n
  {
    if n >= 10 {
      NatToStringRoundTrip(n / 10);
      var s := NatToString(n);
      assert s[..|s| - 1] == NatToString(n / 10);
    }
  }

  /** `format!("{}", n)` / `String.valueOf(n)` for an integer. */
  function IntToString(n: int): (r: string)
    ensures |r| > 0
  {
    if n < 0 then "-" + NatToString(-n) else NatToString(n)
  }
}
