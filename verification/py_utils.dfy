/**
 * The Python client's helpers: argument validators, the version comparison
 * used to pick a native library, and the size-prefixed packing of keys and
 * unpacking of values exchanged with the native reader.
 */
module PyUtils {
  import opened Wrappers
  import opened ByteCodec
  import opened Text
  import opened SizePrefixed
  import opened SemVer

  /** The Python exceptions the model distinguishes. */
  datatype PyError =
    | TypeError(message: string)
    | ValueError(message: string)
    | StructError
    | UnicodeDecodeError
    | RuntimeError(message: string)
    | AttributeError

  /** A Python argument: a `str`, a `bytes`, a `bytearray`, or anything else. */
  datatype PyValue = PyStr(text: string) | PyBytes(bytes: Bytes) | PyByteArray(contents: Bytes) | PyOther

  const EXPECTING_STRING := "expecting a string"
  const EXPECTING_NON_EMPTY_STRING := "expecting non-empty string"
  const EXPECTING_BYTES := "expecting bytes"
  const EXPECTING_NON_EMPTY_BYTES := "expecting non-empty bytes"

  /** The characters `str.strip()` removes (those for which `str.isspace()` holds). */
  predicate IsSpace(c: char)
  {
    c == ' '
    || '\t' <= c <= '\r'
    || '\U{1C}' <= c <= '\U{1F}'
    || c == '\U{85}' || c == '\U{A0}' || c == '\U{1680}'
    || '\U{2000}' <= c <= '\U{200A}'
    || c == '\U{2028}' || c == '\U{2029}' || c == '\U{202F}' || c == '\U{205F}' || c == '\U{3000}'
  }

  /** `not s.strip()`: the text is empty or all whitespace. */
  predicate IsBlank(s: string)
  {
    forall i :: 0 <= i < |s| ==> IsSpace(s[i])
  }

  /** `is_valid_str_or_raise`: a non-`str` is a TypeError, a blank one a ValueError; otherwise the input. */
  function IsValidStrOrRaise(input: PyValue): (r: Result<string, PyError>)
    ensures r.Ok? <==> input.PyStr? && !IsBlank(input.text)
    ensures r.Ok? ==> r.value == input.text && exists i :: 0 <= i < |r.value| && !IsSpace(r.value[i])
    ensures !input.PyStr? ==> r == Err(TypeError(EXPECTING_STRING))
    ensures input.PyStr? && IsBlank(input.text) ==> r == Err(ValueError(EXPECTING_NON_EMPTY_STRING))
  {
    if !input.PyStr? then Err(TypeError(EXPECTING_STRING))
    else if IsBlank(input.text) then Err(ValueError(EXPECTING_NON_EMPTY_STRING))
    else Ok(input.text)
  }

  /** `is_valid_bytes_or_raise`: a non-`bytes` is a TypeError, an empty one a ValueError; otherwise the input. */
  function IsValidBytesOrRaise(input: PyValue): (r: Result<Bytes, PyError>)
    ensures r.Ok? <==> input.PyBytes? && input.bytes != []
    ensures r.Ok? ==> r.value == input.bytes
    ensures !input.PyBytes? ==> r == Err(TypeError(EXPECTING_BYTES))
    ensures input.PyBytes? && input.bytes == [] ==> r == Err(ValueError(EXPECTING_NON_EMPTY_BYTES))
  {
    if !input.PyBytes? then Err(TypeError(EXPECTING_BYTES))
    else if input.bytes == [] then Err(ValueError(EXPECTING_NON_EMPTY_BYTES))
    else Ok(input.bytes)
  }

  /** Validation is idempotent: a validated value validates again to itself. */
  lemma ValidatorsIdempotent(input: PyValue)
    ensures IsValidStrOrRaise(input).Ok? ==> IsValidStrOrRaise(PyStr(IsValidStrOrRaise(input).value)) == IsValidStrOrRaise(input)
    ensures IsValidBytesOrRaise(input).Ok? ==> IsValidBytesOrRaise(PyBytes(IsValidBytesOrRaise(input).value)) == IsValidBytesOrRaise(input)
  {
  }

  // ------------------------------------------------------------ versions

  /** `s.strip()`. */
  function Strip(s: string): (r: string)
    ensures |r| <= |s|
    decreases |s|
  {
    if |s| > 0 && IsSpace(s[0]) then Strip(s[1..])
    else if |s| > 0 && IsSpace(s[|s| - 1]) then Strip(s[..|s| - 1])
    else s
  }

  /**
   * Digits that may be grouped by single underscores, as `int` takes them:
   * `1_000`, but not `_1`, `1_` or `1__0`.
   */
  predicate IsGroupedDigits(t: string)
  {
    && |t| > 0 && IsDigit(t[0]) && IsDigit(t[|t| - 1])
    && (forall i :: 0 <= i < |t| ==> IsDigit(t[i]) || t[i] == '_')
    && forall i :: 0 <= i < |t| - 1 ==> !(t[i] == '_' && t[i + 1] == '_')
  }

  /** The digits of a text, its underscores dropped. */
  function DropUnderscores(t: string): (r: string)
    ensures (forall i :: 0 <= i < |t| ==> IsDigit(t[i]) || t[i] == '_') ==> forall i :: 0 <= i < |r| ==> IsDigit(r[i])
    ensures (forall i :: 0 <= i < |t| ==> IsDigit(t[i])) ==> r == t
    decreases |t|
  {
    if t == [] then []
    else (if t[0] == '_' then [] else [t[0]]) + DropUnderscores(t[1..])
  }

  /**
   * `int(s)` for a decimal text: surrounding whitespace, an optional sign,
   * then ASCII digits, which single underscores may group; anything else
   * is a ValueError.
   */
  function PyInt(s: string): (r: Result<int, PyError>)
    ensures r.Err? <==> !IsGroupedDigits(SignlessPart(Strip(s)))
    ensures r.Err? ==> r.error == ValueError("")
  {
    var t := Strip(s);
    var body := SignlessPart(t);
    if IsGroupedDigits(body) then
      var magnitude: int := DigitsValue(DropUnderscores(body));
      Ok(if |t| > 0 && t[0] == '-' then -magnitude else magnitude)
    else Err(ValueError(""))
  }

  /** The text after an optional leading sign. */
  function SignlessPart(t: string): string
  {
    if |t| > 0 && (t[0] == '+' || t[0] == '-') then t[1..] else t
  }

  /** Underscores group digits: `int("1_0")` is 10, with or without a sign. */
  lemma PyIntGrouped()
    ensures PyInt("1_0") == Ok(10) && PyInt("-1_0") == Ok(-10)
  {
    GroupedTen();
    assert Strip("1_0") == "1_0" by {
      assert !IsSpace("1_0"[0]) && !IsSpace("1_0"[2]);
    }
    assert Strip("-1_0") == "-1_0" by {
      assert !IsSpace("-1_0"[0]) && !IsSpace("-1_0"[3]);
    }
    assert SignlessPart("-1_0") == "1_0";
    assert SignlessPart("1_0") == "1_0";
  }

  lemma GroupedTen()
    ensures IsGroupedDigits("1_0") && DigitsValue(DropUnderscores("1_0")) == 10
  {
    assert DropUnderscores("1_0") == "10" by {
      assert DropUnderscores("0") == "0";
      assert DropUnderscores("_0") == "0";
    }
    assert DigitsValue("10") == 10 by {
      assert "10"[..1] == "1" && "1"[..0] == "";
    }
  }

  /** An underscore must sit between two digits: `_1`, `1_` and `1__0` are ValueErrors. */
  lemma PyIntMisplacedUnderscore()
    ensures PyInt("_1").Err? && PyInt("1_").Err? && PyInt("1__0").Err?
  {
    assert Strip("_1") == "_1" by {
      assert !IsSpace("_1"[0]) && !IsSpace("_1"[1]);
    }
    assert Strip("1_") == "1_" by {
      assert !IsSpace("1_"[0]) && !IsSpace("1_"[1]);
    }
    assert Strip("1__0") == "1__0" by {
      assert !IsSpace("1__0"[0]) && !IsSpace("1__0"[3]);
    }
    assert !IsGroupedDigits("1__0") by {
      assert "1__0"[1] == '_' && "1__0"[2] == '_';
    }
  }

  /** A version as `_parse_semver` returns it. */
  datatype Semver = Semver(major: int, minor: int, patch: int, preRelease: Option<string>)

  /**
   * `_parse_semver`: the version split at '.'; the first three pieces
   * converted with `int` (fewer than three is a ValueError); the fourth
   * piece, if there is one and it holds a '-', is the pre-release.
   */
  function ParseSemver(version: string): (r: Result<Semver, PyError>)
    ensures r.Ok? ==> |Split(version, '.')| >= 3
    ensures r.Err? ==> r.error.ValueError?
  {
    var parts := Split(version, '.');
    var major := PyInt(parts[0]);
    if major.Err? then Err(major.error)
    else if |parts| < 2 then Err(ValueError(""))
    else
      var minor := PyInt(parts[1]);
      if minor.Err? then Err(minor.error)
      else if |parts| < 3 then Err(ValueError(""))
      else
        var patch := PyInt(parts[2]);
        if patch.Err? then Err(patch.error)
        else
          var preRelease := if |parts| > 3 && '-' in parts[3] then Some(parts[3]) else None;
          Ok(Semver(major.value, minor.value, patch.value, preRelease))
  }

  /** Python's `str` ordering: code point by code point, a proper prefix first. */
  function StrCompare(a: string, b: string): (c: int)
    ensures c in {-1, 0, 1}
    ensures c == 0 <==> a == b
    decreases |a|
  {
    if a == [] && b == [] then 0
    else if a == [] then -1
    else if b == [] then 1
    else if a[0] < b[0] then -1
    else if a[0] > b[0] then 1
    else
      var c := StrCompare(a[1..], b[1..]);
      assert c == 0 ==> a == [a[0]] + a[1..] && b == [b[0]] + b[1..];
      c
  }

  lemma {:induction false} StrCompareAntisymmetric(a: string, b: string)
    ensures StrCompare(b, a) == -StrCompare(a, b)
    decreases |a|
  {
    if a != [] && b != [] && a[0] == b[0] {
      StrCompareAntisymmetric(a[1..], b[1..]);
    }
  }

  /** Python's `(a > b) - (a < b)` on two integers. */
  function Sign(a: int, b: int): (c: int)
    ensures c in {-1, 0, 1} && (c == 0 <==> a == b) && (c > 0 <==> a > b)
  {
    if a > b then 1 else if a < b then -1 else 0
  }

  /**
   * `(v1 > v2) - (v1 < v2)` on the parsed tuples: the first differing
   * component decides; two equal pre-releases (or none on both sides) are
   * equal; and a pre-release on one side only makes Python compare `None`
   * with a `str`, a TypeError.
   */
  function TupleCompare(v1: Semver, v2: Semver): (r: Result<int, PyError>)
    ensures r.Ok? ==> r.value in {-1, 0, 1} && (r.value == 0 <==> v1 == v2)
    ensures r.Err? <==> v1.major == v2.major && v1.minor == v2.minor && v1.patch == v2.patch
                        && v1.preRelease.None? != v2.preRelease.None?
  {
    if v1.major != v2.major then Ok(Sign(v1.major, v2.major))
    else if v1.minor != v2.minor then Ok(Sign(v1.minor, v2.minor))
    else if v1.patch != v2.patch then Ok(Sign(v1.patch, v2.patch))
    else if v1.preRelease == v2.preRelease then Ok(0)
    else if v1.preRelease.None? || v2.preRelease.None? then Err(TypeError(""))
    else Ok(StrCompare(v1.preRelease.value, v2.preRelease.value))
  }

  /** `compare_semver`: both versions parsed (the first failure wins), then compared. */
  function CompareSemver(version1: string, version2: string): (r: Result<int, PyError>)
    ensures r.Ok? ==> r.value in {-1, 0, 1}
    ensures r.Ok? ==> (r.value == 0 <==> ParseSemver(version1) == ParseSemver(version2))
  {
    var v1 := ParseSemver(version1);
    if v1.Err? then Err(v1.error)
    else
      var v2 := ParseSemver(version2);
      if v2.Err? then Err(v2.error)
      else TupleCompare(v1.value, v2.value)
  }

  /** Swapping the arguments negates the answer. */
  lemma CompareSemverAntisymmetric(version1: string, version2: string)
    requires CompareSemver(version1, version2).Ok? && CompareSemver(version2, version1).Ok?
    ensures CompareSemver(version2, version1).value == -CompareSemver(version1, version2).value
  {
    var v1, v2 := ParseSemver(version1).value, ParseSemver(version2).value;
    if v1.major == v2.major && v1.minor == v2.minor && v1.patch == v2.patch && v1.preRelease != v2.preRelease {
      StrCompareAntisymmetric(v1.preRelease.value, v2.preRelease.value);
    }
  }

  lemma PyIntOfDigits(s: string)
    requires IsDigits(s)
    ensures PyInt(s) == Ok(DigitsValue(s))
  {
    assert !IsSpace(s[0]) && !IsSpace(s[|s| - 1]);
    assert Strip(s) == s;
    assert SignlessPart(s) == s by {
      assert IsDigit(s[0]);
    }
    assert IsGroupedDigits(s);
  }

  /** A version whose pieces begin with three digit runs parses to their values. */
  lemma ParseOfPieces(version: string, tail: seq<string>)
    requires |Split(version, '.')| == 3 + |tail| && Split(version, '.')[3..] == tail
    requires IsDigits(Split(version, '.')[0]) && IsDigits(Split(version, '.')[1]) && IsDigits(Split(version, '.')[2])
    ensures var parts := Split(version, '.');
      ParseSemver(version) == Ok(Semver(DigitsValue(parts[0]), DigitsValue(parts[1]), DigitsValue(parts[2]),
                                        if |tail| > 0 && '-' in tail[0] then Some(tail[0]) else None))
  {
    var parts := Split(version, '.');
    PyIntOfDigits(parts[0]);
    PyIntOfDigits(parts[1]);
    PyIntOfDigits(parts[2]);
    if |tail| > 0 {
      assert parts[3] == tail[0];
    }
  }

  /** A plain `X.Y.Z` text parses to its numbers, without a pre-release. */
  lemma ParsePlain(s: string)
    requires IsPlain(s)
    ensures ParseSemver(s) == Ok(Semver(ValueOf(s).major, ValueOf(s).minor, ValueOf(s).patch, None))
  {
    ParseOfPieces(s, []);
  }

  /**
   * For plain `X.Y.Z` versions the answer is their precedence: the first
   * differing number decides.
   */
  lemma ComparePlain(version1: string, version2: string)
    requires IsPlain(version1) && IsPlain(version2)
    ensures CompareSemver(version1, version2) == Ok(Precedence(ValueOf(version1), ValueOf(version2)))
  {
    ParsePlain(version1);
    ParsePlain(version2);
  }

  /** In particular for rendered versions. */
  lemma CompareRendered(v1: Version, v2: Version)
    ensures CompareSemver(Render(v1), Render(v2)) == Ok(Precedence(v1, v2))
  {
    RenderIsPlain(v1);
    RenderIsPlain(v2);
    ComparePlain(Render(v1), Render(v2));
  }

  lemma ParseWithPreRelease(v: Version, preRelease: string)
    requires '.' !in preRelease && '-' in preRelease
    ensures ParseSemver(Render(v) + "." + preRelease) == Ok(Semver(v.major, v.minor, v.patch, Some(preRelease)))
  {
    SplitNoSep(preRelease, '.');
    SplitRenderThen(v, preRelease);
    NatToStringRoundTrip(v.major);
    NatToStringRoundTrip(v.minor);
    NatToStringRoundTrip(v.patch);
    var version := Render(v) + "." + preRelease;
    assert Split(version, '.')[3..] == [preRelease];
    ParseOfPieces(version, [preRelease]);
  }

  /**
   * A pre-release on one side only, with equal numbers, is a TypeError
   * (Python cannot order `None` against a `str`), in either order.
   */
  lemma ComparePreReleaseWithPlain(v: Version, preRelease: string)
    requires '.' !in preRelease && '-' in preRelease
    ensures CompareSemver(Render(v), Render(v) + "." + preRelease).Err?
    ensures CompareSemver(Render(v) + "." + preRelease, Render(v)).Err?
  {
    RenderIsPlain(v);
    ParsePlain(Render(v));
    ParseWithPreRelease(v, preRelease);
  }

  // ------------------------------------------------------------ packing

  /** Each string's UTF-8 bytes, in order. */
  function Utf8All(strs: seq<string>): (r: seq<Bytes>)
    ensures |r| == |strs|
    ensures forall i :: 0 <= i < |strs| ==> r[i] == Utf8(strs[i])
    decreases |strs|
  {
    if strs == [] then [] else [Utf8(strs[0])] + Utf8All(strs[1..])
  }

  /**
   * What the packing functions return: the items framed, or a struct.error
   * when a length does not fit the `'<i'` format.
   */
  function Concatenated(items: seq<Bytes>): (r: Result<Bytes, PyError>)
    ensures r.Ok? <==> forall i :: 0 <= i < |items| ==> |items[i]| <= I32_MAX
    ensures r.Ok? ==> Unframe(r.value) == Some(items)
  {
    if Framable(items) then
      UnframeFrame(items);
      Ok(Frame(items))
    else Err(StructError)
  }

  /** The packing of a list that is the concatenation of two lists is the two packings concatenated. */
  lemma ConcatenatedAppend(a: seq<Bytes>, b: seq<Bytes>)
    requires Concatenated(a + b).Ok?
    ensures Concatenated(a).Ok? && Concatenated(b).Ok?
    ensures Concatenated(a + b).value == Concatenated(a).value + Concatenated(b).value
  {
    assert forall i :: 0 <= i < |a| ==> a[i] == (a + b)[i];
    assert forall i :: 0 <= i < |b| ==> b[i] == (a + b)[|a| + i];
    FrameAppend(a, b);
  }

  /** The UTF-8 encoding loop: the encoded strings and `capacity`, the sum of `4 + len` over them. */
  method EncodeAll(input: seq<string>) returns (encoded: seq<Bytes>, capacity: nat)
    ensures encoded == Utf8All(input) && capacity == Capacity(encoded)
  {
    encoded := [];
    capacity := 0;
    for i := 0 to |input|
      invariant encoded == Utf8All(input[..i]) && capacity == Capacity(encoded)
    {
      var inputBytes := Utf8(input[i]);
      capacity := capacity + 4 + |inputBytes|;
      Utf8AllSnoc(input, i);
      CapacitySnoc(encoded, inputBytes);
      encoded := encoded + [inputBytes];
    }
    assert input[..|input|] == input;
  }

  lemma Utf8AllSnoc(strs: seq<string>, i: nat)
    requires i < |strs|
    ensures Utf8All(strs[..i + 1]) == Utf8All(strs[..i]) + [Utf8(strs[i])]
  {
  }

  lemma CapacitySnoc(items: seq<Bytes>, x: Bytes)
    ensures Capacity(items + [x]) == Capacity(items) + 4 + |x|
  {
    FrameAppend(items, [x]);
    FrameCons(x, []);
  }

  /** The summing loop over already-encoded inputs. */
  method SumCapacity(items: seq<Bytes>) returns (capacity: nat)
    ensures capacity == Capacity(items)
  {
    capacity := 0;
    for i := 0 to |items|
      invariant capacity == Capacity(items[..i])
    {
      capacity := capacity + 4 + |items[i]|;
      assert items[..i + 1] == items[..i] + [items[i]];
      CapacitySnoc(items[..i], items[i]);
    }
    assert items[..|items|] == items;
  }

  /** `struct.pack_into('<i', output, i, len(item))` followed by the item's bytes. */
  method WriteEntry(output: array<Byte>, i: nat, item: Bytes)
    requires i + 4 + |item| <= output.Length
    modifies output
    ensures output[..i + 4 + |item|] == old(output[..i]) + Entry(item)
  {
    Put(output, i, I32Le(|item|));
    Put(output, i + 4, item);
  }

  /**
   * The writing loop: for each item, its length as an i32 (a struct.error
   * when it does not fit) and then its bytes, from `pos` on; the returned
   * position is just past the last item.
   */
  method WriteFramed(output: array<Byte>, pos: nat, items: seq<Bytes>) returns (r: Result<nat, PyError>)
    requires pos + Capacity(items) <= output.Length
    modifies output
    ensures Framable(items) <==> r.Ok?
    ensures r.Ok? ==> r.value == pos + Capacity(items) && output[..r.value] == old(output[..pos]) + Frame(items)
    ensures r.Err? ==> r.error == StructError
  {
    ghost var before := output[..pos];
    var i: nat := pos;
    for k := 0 to |items|
      invariant i == pos + Capacity(items[..k]) <= pos + Capacity(items)
      invariant Framable(items[..k])
      invariant output[..i] == before + Frame(items[..k])
    {
      var item := items[k];
      if |item| > I32_MAX {
        FramableStep(items, k);
        return Err(StructError);
      }
      FramableStep(items, k);
      i := WriteItem(output, pos, items, k, i, before);
    }
    assert items[..|items|] == items;
    return Ok(i);
  }

  /** The loop body: item `k` written after the items before it. */
  method WriteItem(output: array<Byte>, pos: nat, items: seq<Bytes>, k: nat, i: nat, ghost before: Bytes) returns (next: nat)
    requires k < |items| && pos + Capacity(items) <= output.Length
    requires i == pos + Capacity(items[..k]) <= output.Length && output[..i] == before + Frame(items[..k])
    modifies output
    ensures next == pos + Capacity(items[..k + 1]) <= pos + Capacity(items)
    ensures output[..next] == before + Frame(items[..k + 1])
  {
    WritePrefixStep(items, k);
    ghost var written := Frame(items[..k]);
    ghost var entry := Entry(items[k]);
    WriteEntry(output, i, items[k]);
    next := i + 4 + |items[k]|;
    assert output[..next] == (before + written) + entry;
    assert (before + written) + entry == before + (written + entry);
  }

  /** The items up to `k` fit exactly when those before it do and it does. */
  lemma FramableStep(items: seq<Bytes>, k: nat)
    requires k < |items|
    ensures Framable(items[..k + 1]) <==> Framable(items[..k]) && |items[k]| <= I32_MAX
    ensures |items[k]| > I32_MAX ==> !Framable(items)
  {
    assert items[..k + 1][k] == items[k];
    assert forall j :: 0 <= j < k ==> items[..k + 1][j] == items[..k][j];
  }

  /** One more item: the prefix's framing, capacity and fit grow by it. */
  lemma WritePrefixStep(items: seq<Bytes>, k: nat)
    requires k < |items|
    ensures Frame(items[..k + 1]) == Frame(items[..k]) + Entry(items[k])
    ensures Capacity(items[..k + 1]) == Capacity(items[..k]) + 4 + |items[k]| <= Capacity(items)
  {
    FrameStep(items, k);
    CapacityPrefix(items, k + 1);
  }

  lemma FrameStep(items: seq<Bytes>, k: nat)
    requires k < |items|
    ensures Frame(items[..k + 1]) == Frame(items[..k]) + Entry(items[k])
  {
    FrameSnoc(items, k);
    var head, len, x := Frame(items[..k]), I32Le(|items[k]|), items[k];
    assert head + len + x == head + (len + x);
  }

  /** Both lists written one after the other into one buffer. */
  method WriteBoth(output: array<Byte>, first: seq<Bytes>, second: seq<Bytes>) returns (r: Result<nat, PyError>)
    requires Capacity(first) + Capacity(second) <= output.Length
    modifies output
    ensures Framable(first + second) <==> r.Ok?
    ensures r.Ok? ==> r.value == Capacity(first + second) <= output.Length && output[..r.value] == Frame(first + second)
    ensures r.Err? ==> r.error == StructError
  {
    FramableAppend(first, second);
    FrameAppend(first, second);
    assert Capacity(first + second) == Capacity(first) + Capacity(second);
    r := WriteFramed(output, 0, first);
    if r.Err? {
      return;
    }
    ghost var head := output[..r.value];
    assert head == Frame(first);
    r := WriteFramed(output, r.value, second);
    if r.Ok? {
      assert output[..r.value] == head + Frame(second);
    }
  }

  /**
   * `concat_strings_with_size_prefix`: the strings' UTF-8 bytes, each after
   * its length as a little-endian i32; an empty list gives an empty buffer.
   */
  method ConcatStringsWithSizePrefix(input: seq<string>) returns (r: Result<Bytes, PyError>)
    ensures r == Concatenated(Utf8All(input))
  {
    if |input| == 0 {
      return Ok([]);
    }
    var inputAsBytes, capacity := EncodeAll(input);
    var output := new Byte[capacity];
    var written := WriteFramed(output, 0, inputAsBytes);
    if written.Err? {
      return Err(written.error);
    }
    assert output[..] == output[..written.value];
    return Ok(output[..]);
  }

  /**
   * `concat_as_utf8_with_size_prefix`: the byte strings first, then the
   * strings' UTF-8 bytes, all framed in one buffer; two empty lists give an
   * empty buffer.
   */
  method ConcatAsUtf8WithSizePrefix(bytesInput: seq<Bytes>, strInput: seq<string>) returns (r: Result<Bytes, PyError>)
    ensures r == Concatenated(bytesInput + Utf8All(strInput))
  {
    if |bytesInput| == 0 && |strInput| == 0 {
      assert bytesInput + Utf8All(strInput) == [];
      return Ok([]);
    }
    var capacity := SumCapacity(bytesInput);
    var strInputAsBytes, strCapacity := EncodeAll(strInput);
    var output := new Byte[capacity + strCapacity];
    var written := WriteBoth(output, bytesInput, strInputAsBytes);
    if written.Err? {
      return Err(written.error);
    }
    FrameAppend(bytesInput, strInputAsBytes);
    assert written.value == output.Length;
    assert output[..] == output[..written.value];
    return Ok(output[..]);
  }

  lemma FramableAppend(a: seq<Bytes>, b: seq<Bytes>)
    ensures Framable(a + b) <==> Framable(a) && Framable(b)
  {
    if Framable(a) && Framable(b) {
      forall j | 0 <= j < |a + b|
        ensures |(a + b)[j]| <= I32_MAX
      {
        if j >= |a| {
          assert (a + b)[j] == b[j - |a|];
        }
      }
    }
    if Framable(a + b) {
      assert forall j :: 0 <= j < |a| ==> a[j] == (a + b)[j];
      assert forall j :: 0 <= j < |b| ==> b[j] == (a + b)[|a| + j];
    }
  }

  // ------------------------------------------------------------ unpacking

  /** `front` followed by what `rest` holds, or the error of `rest`. */
  function Then<T>(front: seq<T>, rest: Result<seq<T>, PyError>): (r: Result<seq<T>, PyError>)
    ensures r.Ok? <==> rest.Ok?
    ensures rest.Err? ==> r == rest
  {
    match rest
    case Ok(items) => Ok(front + items)
    case Err(e) => Err(e)
  }

  lemma ThenThen<T>(a: seq<T>, b: seq<T>, rest: Result<seq<T>, PyError>)
    ensures Then(a, Then(b, rest)) == Then(a + b, rest)
  {
    if rest.Ok? {
      assert a + (b + rest.value) == a + b + rest.value;
    }
  }

  const NEGATIVE_SIZE := "size below -1"

  /**
   * The values of a buffer of size-prefixed entries, as the two unpacking
   * generators yield them and `list` collects them: a size of -1 is a
   * missing value, 0 the empty value, and a positive size the next bytes
   * converted by `decode` (a size past the end takes what is left, as a
   * slice does, and ends the loop); fewer than four bytes where a size is
   * due is a struct.error, and the first error ends the whole. A size
   * below -1 is rejected: as written, the cursor moves back by it (see
   * `NextCursorAsWritten`).
   */
  function Unpacked<T>(b: Bytes, empty: T, decode: Bytes -> Result<T, PyError>): (r: Result<seq<Option<T>>, PyError>)
    decreases |b|
  {
    if b == [] then Ok([])
    else if |b| < 4 then Err(StructError)
    else
      var size := I32FromLe(b[..4]);
      if size == -1 then Then([None], Unpacked(b[4..], empty, decode))
      else if size == 0 then Then([Some(empty)], Unpacked(b[4..], empty, decode))
      else if size < -1 then Err(ValueError(NEGATIVE_SIZE))
      else if 4 + size >= |b| then
        match decode(b[4..])
        case Err(e) => Err(e)
        case Ok(v) => Ok([Some(v)])
      else
        match decode(b[4..4 + size])
        case Err(e) => Err(e)
        case Ok(v) => Then([Some(v)], Unpacked(b[4 + size..], empty, decode))
  }

  /** What is still to be read from position `i` on. */
  function Remaining<T>(b: Bytes, i: nat, empty: T, decode: Bytes -> Result<T, PyError>): Result<seq<Option<T>>, PyError>
  {
    if i < |b| then Unpacked(b[i..], empty, decode) else Ok([])
  }

  /** The unfolding of `Unpacked` at position `i` of a buffer. */
  lemma UnpackedAt<T>(b: Bytes, i: nat, empty: T, decode: Bytes -> Result<T, PyError>)
    requires i + 4 <= |b|
    ensures
      var size := I32FromLe(b[i..i + 4]);
      var here := Unpacked(b[i..], empty, decode);
      && (size == -1 ==> here == Then([None], Remaining(b, i + 4, empty, decode)))
      && (size == 0 ==> here == Then([Some(empty)], Remaining(b, i + 4, empty, decode)))
      && (size < -1 ==> here == Err(ValueError(NEGATIVE_SIZE)))
      && (size > 0 ==>
            var v := decode(b[i + 4..if i + 4 + size <= |b| then i + 4 + size else |b|]);
            here == if v.Err? then Err(v.error) else Then([Some(v.value)], Remaining(b, i + 4 + size, empty, decode)))
  {
    var c := b[i..];
    assert c[..4] == b[i..i + 4];
    assert c[4..] == b[i + 4..];
    var size := I32FromLe(b[i..i + 4]);
    if size == -1 || size == 0 {
      if i + 4 == |b| {
        assert c[4..] == [];
      }
    } else if size > 0 && 4 + size < |c| {
      assert c[4..4 + size] == b[i + 4..i + 4 + size];
      assert c[4 + size..] == b[i + 4 + size..];
    } else if size > 0 {
      assert c[4..] == b[i + 4..if i + 4 + size <= |b| then i + 4 + size else |b|];
      var v := decode(c[4..]);
      if v.Ok? {
        assert [Some(v.value)] + [] == [Some(v.value)];
      }
    }
  }

  /**
   * One turn of the generator loop at cursor `i`: the size, and the value
   * it announces together with the cursor after it.
   */
  method ReadOne<T>(input: Bytes, i: nat, empty: T, decode: Bytes -> Result<T, PyError>) returns (r: Result<(Option<T>, nat), PyError>)
    requires i < |input|
    ensures r.Err? ==> Remaining(input, i, empty, decode) == Err(r.error)
    ensures r.Ok? ==> i < r.value.1
    ensures r.Ok? ==> Remaining(input, i, empty, decode) == Then([r.value.0], Remaining(input, r.value.1, empty, decode))
  {
    if |input| - i < 4 {
      assert Unpacked(input[i..], empty, decode) == Err(StructError);
      return Err(StructError);
    }
    UnpackedAt(input, i, empty, decode);
    var size := I32FromLe(input[i..i + 4]);
    var next: nat := i + 4;
    if size == -1 {
      return Ok((None, next));
    } else if size == 0 {
      return Ok((Some(empty), next));
    } else if size < -1 {
      return Err(ValueError(NEGATIVE_SIZE));
    }
    var end := if next + size <= |input| then next + size else |input|;
    var value := decode(input[next..end]);
    if value.Err? {
      return Err(value.error);
    }
    var after: nat := next + size;
    return Ok((Some(value.value), after));
  }

  /**
   * The generator loop, collected: reads a size at the cursor, moves past
   * it, and yields the value; a positive size also moves the cursor past
   * the value.
   */
  method UnpackSizePrefixed<T>(input: Bytes, empty: T, decode: Bytes -> Result<T, PyError>) returns (r: Result<seq<Option<T>>, PyError>)
    ensures r == Unpacked(input, empty, decode)
  {
    var values: seq<Option<T>> := [];
    var i: nat := 0;
    assert input[0..] == input;
    assert Then([], Unpacked(input, empty, decode)) == Unpacked(input, empty, decode) by {
      if Unpacked(input, empty, decode).Ok? {
        assert [] + Unpacked(input, empty, decode).value == Unpacked(input, empty, decode).value;
      }
    }
    while i < |input|
      invariant Then(values, Remaining(input, i, empty, decode)) == Unpacked(input, empty, decode)
      decreases |input| - i
    {
      var step := ReadOne(input, i, empty, decode);
      if step.Err? {
        return Err(step.error);
      }
      var (value, next) := step.value;
      ThenThen(values, [value], Remaining(input, next, empty, decode));
      values := values + [value];
      i := next;
    }
    assert values + [] == values;
    return Ok(values);
  }

  /** The conversion of `unpack_size_prefixed_bytes_as_bytes`: the slice itself. */
  function KeepBytes(b: Bytes): (r: Result<Bytes, PyError>)
    ensures r == Ok(b)
  {
    Ok(b)
  }

  /** The conversion of `unpack_size_prefixed_bytes_as_str`: strict UTF-8 decoding. */
  function DecodeStr(b: Bytes): (r: Result<string, PyError>)
    ensures r.Ok? <==> Utf8Decode(b).Some?
    ensures r.Ok? ==> r.value == Utf8Decode(b).value
    ensures r.Err? ==> r.error == UnicodeDecodeError
  {
    match Utf8Decode(b)
    case None => Err(UnicodeDecodeError)
    case Some(s) => Ok(s)
  }

  /** `unpack_size_prefixed_bytes_as_bytes`, collected into a list. */
  method UnpackSizePrefixedBytesAsBytes(input: Bytes) returns (r: Result<seq<Option<Bytes>>, PyError>)
    ensures r == Unpacked(input, [], KeepBytes)
  {
    r := UnpackSizePrefixed(input, [], KeepBytes);
  }

  /** `unpack_size_prefixed_bytes_as_str`, collected into a list. */
  method UnpackSizePrefixedBytesAsStr(input: Bytes) returns (r: Result<seq<Option<string>>, PyError>)
    ensures r == Unpacked(input, "", DecodeStr)
  {
    r := UnpackSizePrefixed(input, "", DecodeStr);
  }

  /** Every element present. */
  function Somes<T>(xs: seq<T>): (r: seq<Option<T>>)
    ensures |r| == |xs| && forall i :: 0 <= i < |xs| ==> r[i] == Some(xs[i])
    decreases |xs|
  {
    if xs == [] then [] else [Some(xs[0])] + Somes(xs[1..])
  }

  /** Framed byte strings unpack as themselves, the empty ones included. */
  lemma {:induction false} UnpackBytesOfFrame(items: seq<Bytes>)
    requires Framable(items)
    ensures Unpacked(Frame(items), [], KeepBytes) == Ok(Somes(items))
    decreases |items|
  {
    if items != [] {
      var x, rest := items[0], items[1..];
      FrameCons(x, rest);
      assert items == [x] + rest;
      var b := Frame(items);
      assert b[..4] == I32Le(|x|);
      I32RoundTrip(|x|);
      assert Framable(rest) by {
        assert forall i :: 0 <= i < |rest| ==> rest[i] == items[i + 1];
      }
      UnpackBytesOfFrame(rest);
      assert b[4 + |x|..] == Frame(rest);
      if |x| == 0 {
        assert b[4..] == Frame(rest);
      } else if 4 + |x| >= |b| {
        assert Frame(rest) == [];
        assert Capacity(rest) == 0;
        assert b[4..] == x;
        assert Somes(items) == [Some(x)];
      } else {
        assert b[4..4 + |x|] == x;
      }
    }
  }

  /** Framed UTF-8 strings unpack as the strings, the empty ones included. */
  lemma {:induction false} UnpackStrOfFrame(strs: seq<string>)
    requires Framable(Utf8All(strs))
    ensures Unpacked(Frame(Utf8All(strs)), "", DecodeStr) == Ok(Somes(strs))
    decreases |strs|
  {
    if strs != [] {
      var items := Utf8All(strs);
      var x, rest := items[0], items[1..];
      assert rest == Utf8All(strs[1..]);
      FrameCons(x, rest);
      assert items == [x] + rest;
      var b := Frame(items);
      assert b[..4] == I32Le(|x|);
      I32RoundTrip(|x|);
      assert Framable(rest) by {
        assert forall i :: 0 <= i < |rest| ==> rest[i] == items[i + 1];
      }
      UnpackStrOfFrame(strs[1..]);
      Utf8RoundTrip(strs[0]);
      assert b[4 + |x|..] == Frame(rest);
      assert Somes(strs) == [Some(strs[0])] + Somes(strs[1..]);
      if |x| == 0 {
        assert strs[0] == "";
        assert b[4..] == Frame(rest);
      } else if 4 + |x| >= |b| {
        assert Capacity(rest) == 0;
        assert b[4..] == x;
        assert strs[1..] == [];
        assert Somes(strs) == [Some(strs[0])];
      } else {
        assert b[4..4 + |x|] == x;
      }
    }
  }

  /** Strings packed by `concat_strings_with_size_prefix` unpack as the same strings. */
  lemma StringsRoundTrip(strs: seq<string>)
    requires Concatenated(Utf8All(strs)).Ok?
    ensures Unpacked(Concatenated(Utf8All(strs)).value, "", DecodeStr) == Ok(Somes(strs))
  {
    UnpackStrOfFrame(strs);
  }

  /** Byte strings packed by `concat_as_utf8_with_size_prefix` unpack as the same byte strings. */
  lemma BytesRoundTrip(items: seq<Bytes>)
    requires Concatenated(items + Utf8All([])).Ok?
    ensures Unpacked(Concatenated(items + Utf8All([])).value, [], KeepBytes) == Ok(Somes(items))
  {
    assert items + Utf8All([]) == items;
    UnpackBytesOfFrame(items);
  }

  /**
   * Byte strings and strings packed together unpack, as bytes, to the byte
   * strings followed by the strings' UTF-8 bytes, each of which decodes
   * back to its string.
   */
  lemma MixedRoundTrip(bytesInput: seq<Bytes>, strInput: seq<string>)
    requires Concatenated(bytesInput + Utf8All(strInput)).Ok?
    ensures Unpacked(Concatenated(bytesInput + Utf8All(strInput)).value, [], KeepBytes)
            == Ok(Somes(bytesInput) + Somes(Utf8All(strInput)))
    ensures forall j :: 0 <= j < |strInput| ==> DecodeStr(Utf8All(strInput)[j]) == Ok(strInput[j])
  {
    var all := bytesInput + Utf8All(strInput);
    UnpackBytesOfFrame(all);
    assert Somes(all) == Somes(bytesInput) + Somes(Utf8All(strInput));
    forall j | 0 <= j < |strInput|
      ensures DecodeStr(Utf8All(strInput)[j]) == Ok(strInput[j])
    {
      Utf8RoundTrip(strInput[j]);
    }
  }

  /** A missing value written by the index reads back as None. */
  lemma UnpackNoneSize()
    ensures Unpacked(NONE_SIZE, [], KeepBytes) == Ok([None])
  {
    assert NONE_SIZE[..4] == NONE_SIZE;
    assert NONE_SIZE[4..] == [];
    NoneSizeIsMinusOne();
    var missing: seq<Option<Bytes>> := [None];
    assert missing + [] == missing;
  }

  /**
   * The cursor after one step of the generators as written: past the size,
   * and past `size` more bytes unless the size is -1 or 0, whatever its sign.
   */
  function NextCursorAsWritten(b: Bytes, i: nat): (next: int)
    requires i + 4 <= |b|
    ensures var size := I32FromLe(b[i..i + 4]); size < -4 ==> next < i
  {
    var size := I32FromLe(b[i..i + 4]);
    if size == -1 || size == 0 then i + 4 else i + 4 + size
  }

  /**
   * As written, a size of -4 at the start sends the cursor back to the start
   * after yielding an empty slice, so the generator yields forever.
   */
  lemma AsWrittenLoopsForever()
    ensures var b: Bytes := [0xFC, 0xFF, 0xFF, 0xFF];
      I32FromLe(b[0..4]) == -4 && NextCursorAsWritten(b, 0) == 0
  {
    var b: Bytes := [0xFC, 0xFF, 0xFF, 0xFF];
    assert b[0..4] == b;
  }

  /** The corrected reading of the same buffer stops with an error. */
  lemma CorrectedRejectsNegativeSize()
    ensures Unpacked([0xFC, 0xFF, 0xFF, 0xFF], [], KeepBytes) == Err(ValueError(NEGATIVE_SIZE))
  {
    var b: Bytes := [0xFC, 0xFF, 0xFF, 0xFF];
    assert b[..4] == b;
  }
}
