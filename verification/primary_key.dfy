/**
 * The older client's primary key: the key's serialized bytes, built from a
 * non-empty byte array or a non-empty string; numeric keys are not
 * supported.
 */
module PrimaryKeys {
  import opened Wrappers
  import opened ByteCodec
  import opened Text
  import opened JavaExceptions

  /** A key as its serialized bytes. */
  datatype PrimaryKey = PrimaryKey(serializedKey: Bytes)

  /** `from(byte[])`: a null or empty array is refused with IllegalArgumentException. */
  function FromBytes(key: Option<Bytes>): (r: Result<PrimaryKey, Thrown>)
    ensures r.Ok? <==> key.Some? && key.value != []
    ensures r.Err? ==> r.error == IllegalArgument("")
    ensures r.Ok? ==> r.value.serializedKey == key.value
  {
    if key.None? || key.value == [] then Err(IllegalArgument("")) else Ok(PrimaryKey(key.value))
  }

  /** `from(String)`: a null or empty string is refused; otherwise its UTF-8 bytes. */
  function FromString(key: Option<string>): (r: Result<PrimaryKey, Thrown>)
    ensures r.Ok? <==> key.Some? && key.value != ""
    ensures r.Err? ==> r.error == IllegalArgument("")
  {
    if key.None? || key.value == "" then Err(IllegalArgument("")) else Ok(PrimaryKey(Utf8(key.value)))
  }

  /** `from(int)`, `from(long)`, `from(float)`, `from(double)`: not supported. */
  function FromNumber(): (r: Result<PrimaryKey, Thrown>)
    ensures r == Err(UnsupportedOperation)
  {
    Err(UnsupportedOperation)
  }

  /**
   * Every key either factory accepts has non-empty bytes, and a string key's
   * bytes decode back to the string, so distinct strings give distinct keys.
   */
  lemma FromStringRoundTrip(s: string)
    requires s != ""
    ensures FromString(Some(s)).Ok?
    ensures Utf8DecodeLenient(FromString(Some(s)).value.serializedKey) == s
    ensures FromString(Some(s)).value.serializedKey != []
  {
    Utf8LenientRoundTrip(s);
  }

  /** Distinct non-empty strings make distinct keys. */
  lemma FromStringInjective(s: string, t: string)
    requires s != "" && t != "" && FromString(Some(s)) == FromString(Some(t))
    ensures s == t
  {
    FromStringRoundTrip(s);
    FromStringRoundTrip(t);
  }
}
