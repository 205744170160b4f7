/**
 * The server-side-encryption key derived from the account passkey: the
 * passkey's UTF-8 bytes repeated up to 32 bytes. The MD5 digest and the
 * base64 rendering of key and digest are library calls and are not part of
 * this model.
 */
module SseKey {
  import opened Wrappers
  import opened ByteCodec
  import opened Text
  import opened StoreConfig

  const KEY_LEN: nat := 32

  /** The cyclic repetition of `p`: position i holds `p[i mod |p|]`. */
  predicate Repeats(v: Bytes, p: Bytes)
    requires |p| > 0
  {
    forall i :: 0 <= i < |v| ==> v[i] == p[i % |p|]
  }

  lemma {:induction false} MulAtLeast(d: int, n: int)
    requires d >= 1 && n > 0
    ensures d * n >= n
    decreases d
  {
    if d > 1 {
      MulAtLeast(d - 1, n);
      assert d * n == (d - 1) * n + n;
    }
  }

  /** A value written as `a * n + r` with `0 <= r < n` has residue r. */
  lemma ModUnique(x: int, a: int, r: int, n: int)
    requires n > 0 && 0 <= r < n && x == a * n + r
    ensures x % n == r
  {
    var q, s := x / n, x % n;
    assert x == q * n + s;
    var d := a - q;
    assert d * n == s - r by {
      assert d * n == a * n - q * n;
    }
    if d >= 1 {
      MulAtLeast(d, n);
    } else if d <= -1 {
      MulAtLeast(-d, n);
    }
  }

  /** Moving by one period keeps the residue. */
  lemma ModStep(j: int, n: int)
    requires n > 0
    ensures (j + n) % n == j % n
  {
    var q, r := j / n, j % n;
    assert j == q * n + r;
    assert j + n == (q + 1) * n + r;
    ModUnique(j + n, q + 1, r, n);
  }

  /** Moving by a whole number of periods keeps the residue. */
  lemma {:induction false} ModShift(j: nat, k: nat, n: nat)
    requires n > 0
    ensures (j + k * n) % n == j % n
    decreases k
  {
    if k > 0 {
      ModShift(j, k - 1, n);
      assert j + k * n == (j + (k - 1) * n) + n;
      ModStep(j + (k - 1) * n, n);
    }
  }

  /** A whole number of copies of `p`, doubled, is again whole copies of `p`. */
  lemma RepeatsDouble(v: Bytes, p: Bytes, copies: nat)
    requires |p| > 0 && |v| == copies * |p| && Repeats(v, p)
    ensures |v + v| == (2 * copies) * |p| && Repeats(v + v, p)
  {
    assert |v + v| == 2 * |v|;
    forall i | |v| <= i < 2 * |v|
      ensures (v + v)[i] == p[i % |p|]
    {
      ModShift(i - |v|, copies, |p|);
    }
  }

  /** Every sequence is a repetition of itself. */
  lemma RepeatsSelf(p: Bytes)
    requires |p| > 0
    ensures Repeats(p, p)
  {
    forall i | 0 <= i < |p|
      ensures p[i] == p[i % |p|]
    {
      ModUnique(i, 0, i, |p|);
    }
  }

  /** A prefix of a repetition of `p` is one too. */
  lemma RepeatsPrefix(v: Bytes, p: Bytes, n: nat)
    requires |p| > 0 && n <= |v| && Repeats(v, p)
    ensures Repeats(v[..n], p)
  {
  }

  /** The bytes appended to themselves until there are at least 32 of them. */
  function Padded(v: Bytes): (r: Bytes)
    requires |v| > 0
    ensures |r| >= KEY_LEN && |r| >= |v| && r[..|v|] == v
    decreases KEY_LEN - |v|
  {
    if |v| >= KEY_LEN then v else
      var r := Padded(v + v);
      assert r[..|v|] == r[..2 * |v|][..|v|];
      r
  }

  /** Padding whole copies of `p` yields a repetition of `p`. */
  lemma {:induction false} PaddedRepeats(v: Bytes, p: Bytes, copies: nat)
    requires |p| > 0 && |v| > 0 && |v| == copies * |p| && Repeats(v, p)
    ensures Repeats(Padded(v), p)
    decreases KEY_LEN - |v|
  {
    if |v| < KEY_LEN {
      RepeatsDouble(v, p, copies);
      PaddedRepeats(v + v, p, 2 * copies);
    }
  }

  /**
   * The padding loop: the bytes are appended to themselves until there are
   * at least 32, and the first 32 are the key: a repetition of the passkey,
   * and its first 32 bytes when it is that long. An empty passkey would never
   * leave the loop, so it is excluded.
   */
  method PadKey(passkey: Bytes) returns (key: Bytes)
    requires |passkey| > 0
    ensures key == Padded(passkey)[..KEY_LEN]
    ensures |key| == KEY_LEN && Repeats(key, passkey)
    ensures |passkey| >= KEY_LEN ==> key == passkey[..KEY_LEN]
  {
    var v := passkey;
    while |v| < KEY_LEN
      invariant |v| > 0 && Padded(v) == Padded(passkey)
      decreases KEY_LEN - |v|
    {
      v := v + v;
    }
    key := v[..KEY_LEN];
    RepeatsSelf(passkey);
    PaddedRepeats(passkey, passkey, 1);
    RepeatsPrefix(Padded(passkey), passkey, KEY_LEN);
  }

  /**
   * `sse_key_and_digest` up to the digest: a missing passkey is an error,
   * otherwise the key is the padded passkey.
   */
  method SseKeyFromConfig(config: IKVStoreConfig) returns (r: Result<Bytes, string>)
    requires "account_passkey" in config.stringConfigs ==> config.stringConfigs["account_passkey"] != ""
    ensures r.Err? <==> "account_passkey" !in config.stringConfigs
    ensures r.Err? ==> r.error == "account_passkey is a required client-specified config"
    ensures r.Ok? ==>
      var p := Utf8(config.stringConfigs["account_passkey"]);
      |r.value| == KEY_LEN && |p| > 0 && Repeats(r.value, p)
  {
    if "account_passkey" !in config.stringConfigs {
      return Err("account_passkey is a required client-specified config");
    }
    var passkey := Utf8(config.stringConfigs["account_passkey"]);
    var key := PadKey(passkey);
    return Ok(key);
  }
}
