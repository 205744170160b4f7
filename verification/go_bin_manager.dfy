/**
 * The Go client's native-library manager: the S3 prefix of the running
 * platform, the version inside a key or path, `compareVersions`, the highest
 * version listed under the prefix, the library kept under `<mount>/bin`, and
 * the decision to download a newer one.
 */
module GoBinaryManager {
  import opened Wrappers
  import opened Text
  import opened SemVer
  import opened LocalFiles
  import opened ByteCodec

  const BUCKET_NAME: string := "ikv-binaries"

  // ---------------------------------------------------------------- platform

  /**
   * `createS3PrefixForPlatform` on `runtime.GOOS` and `runtime.GOARCH`,
   * lower-cased: only linux on amd64 or arm64 and darwin on arm64 have a
   * prefix; any other pair is an error naming both.
   */
  function PlatformPrefix(goos: string, goarch: string): (r: Result<string, string>)
    ensures r.Ok? <==> (Lower(goos) == "linux" && (Lower(goarch) == "amd64" || Lower(goarch) == "arm64"))
                       || (Lower(goos) == "darwin" && Lower(goarch) == "arm64")
    ensures r.Err? ==> r.error == "unsupported host operating-system: " + Lower(goos) + " OR platform: " + Lower(goarch)
    ensures r.Ok? ==> r.value in {"release/linux-x86_64", "release/linux-aarch64", "release/mac-aarch64"}
  {
    var os, arch := Lower(goos), Lower(goarch);
    if os == "linux" && arch == "amd64" then Ok("release/linux-x86_64")
    else if os == "linux" && arch == "arm64" then Ok("release/linux-aarch64")
    else if os == "darwin" && arch == "arm64" then Ok("release/mac-aarch64")
    else Err("unsupported host operating-system: " + os + " OR platform: " + arch)
  }

  // ---------------------------------------------------------------- versions

  /** Clamping to the int64 range, as `strconv.ParseInt` does on overflow. */
  function Saturate(n: int): (r: int)
    ensures I64_MIN <= r <= I64_MAX
    ensures I64_MIN <= n <= I64_MAX ==> r == n
  {
    if n > I64_MAX then I64_MAX else if n < I64_MIN then I64_MIN else n
  }

  /**
   * The value `strconv.Atoi` returns on a 64-bit platform, its error
   * ignored: an optional sign and ASCII digits give their value, clamped to
   * the int64 range; any other text gives 0.
   */
  function Atoi(s: string): (n: int)
    ensures I64_MIN <= n <= I64_MAX
    ensures s == "" || (!IsDigit(s[0]) && s[0] != '+' && s[0] != '-') ==> n == 0
    ensures IsDigits(s) && DigitsValue(s) > I64_MAX ==> n == I64_MAX
  {
    if IsDigits(s) then Saturate(DigitsValue(s))
    else if |s| >= 2 && s[0] == '+' && IsDigits(s[1..]) then Saturate(DigitsValue(s[1..]))
    else if |s| >= 2 && s[0] == '-' && IsDigits(s[1..]) then Saturate(-(DigitsValue(s[1..]) as int))
    else 0
  }

  /** Every int64 reads back from its decimal text. */
  lemma AtoiRoundTrip(n: int)
    requires I64_MIN <= n <= I64_MAX
    ensures Atoi(IntToString(n)) == n
  {
    var s := IntToString(n);
    if n < 0 {
      assert s[1..] == NatToString(-n);
      NatToStringRoundTrip(-n);
    } else {
      NatToStringRoundTrip(n);
    }
  }

  /**
   * `compareVersions` from part `i` on: the first part whose integer
   * values differ decides; when one side runs out of parts, the side with
   * fewer parts is the lower.
   */
  function CompareFrom(parts1: seq<string>, parts2: seq<string>, i: nat): (c: int)
    requires i <= |parts1| && i <= |parts2|
    ensures c in {-1, 0, 1}
    decreases |parts1| - i
  {
    if i < |parts1| && i < |parts2| then
      var v1Part, v2Part := Atoi(parts1[i]), Atoi(parts2[i]);
      if v1Part < v2Part then -1
      else if v1Part > v2Part then 1
      else CompareFrom(parts1, parts2, i + 1)
    else if |parts1| < |parts2| then -1
    else if |parts1| > |parts2| then 1
    else 0
  }

  /** `compareVersions(v1, v2)`: -1, 0 or 1. */
  function Compared(v1: string, v2: string): (c: int)
    ensures c in {-1, 0, 1}
  {
    CompareFrom(Split(v1, '.'), Split(v2, '.'), 0)
  }

  /** `compareVersions`, loop and all. */
  method CompareVersions(v1: string, v2: string) returns (c: int)
    ensures c == Compared(v1, v2)
  {
    var v1Parts := Split(v1, '.');
    var v2Parts := Split(v2, '.');
    var i := 0;
    while i < |v1Parts| && i < |v2Parts|
      invariant i <= |v1Parts| && i <= |v2Parts|
      invariant CompareFrom(v1Parts, v2Parts, 0) == CompareFrom(v1Parts, v2Parts, i)
    {
      var v1Part := Atoi(v1Parts[i]);
      var v2Part := Atoi(v2Parts[i]);
      if v1Part < v2Part {
        return -1;
      } else if v1Part > v2Part {
        return 1;
      }
      i := i + 1;
    }
    if |v1Parts| < |v2Parts| {
      return -1;
    } else if |v1Parts| > |v2Parts| {
      return 1;
    }
    return 0;
  }

  lemma {:induction false} CompareFromAntisymmetric(parts1: seq<string>, parts2: seq<string>, i: nat)
    requires i <= |parts1| && i <= |parts2|
    ensures CompareFrom(parts2, parts1, i) == -CompareFrom(parts1, parts2, i)
    decreases |parts1| - i
  {
    if i < |parts1| && i < |parts2| {
      CompareFromAntisymmetric(parts1, parts2, i + 1);
    }
  }

  lemma {:induction false} CompareFromTransitive(parts1: seq<string>, parts2: seq<string>, parts3: seq<string>, i: nat)
    requires i <= |parts1| && i <= |parts2| && i <= |parts3|
    ensures CompareFrom(parts1, parts2, i) <= 0 && CompareFrom(parts2, parts3, i) <= 0 ==> CompareFrom(parts1, parts3, i) <= 0
    ensures CompareFrom(parts1, parts2, i) < 0 && CompareFrom(parts2, parts3, i) <= 0 ==> CompareFrom(parts1, parts3, i) < 0
    ensures CompareFrom(parts1, parts2, i) <= 0 && CompareFrom(parts2, parts3, i) < 0 ==> CompareFrom(parts1, parts3, i) < 0
    decreases |parts1| - i
  {
    if i < |parts1| && i < |parts2| && i < |parts3| {
      CompareFromTransitive(parts1, parts2, parts3, i + 1);
    }
  }

  /**
   * `compareVersions` orders all texts, versions or not: it is reflexive,
   * antisymmetric and transitive.
   */
  lemma CompareOrder(a: string, b: string, c: string)
    ensures Compared(a, a) == 0
    ensures Compared(b, a) == -Compared(a, b)
    ensures Compared(a, b) <= 0 && Compared(b, c) <= 0 ==> Compared(a, c) <= 0
    ensures Compared(a, b) < 0 && Compared(b, c) <= 0 ==> Compared(a, c) < 0
    ensures Compared(a, b) <= 0 && Compared(b, c) < 0 ==> Compared(a, c) < 0
  {
    CompareFromAntisymmetric(Split(a, '.'), Split(a, '.'), 0);
    CompareFromAntisymmetric(Split(a, '.'), Split(b, '.'), 0);
    CompareFromTransitive(Split(a, '.'), Split(b, '.'), Split(c, '.'), 0);
  }

  /** A version whose three numbers are int64 values. */
  predicate Small(v: Version)
  {
    v.major <= I64_MAX && v.minor <= I64_MAX && v.patch <= I64_MAX
  }

  /** On plain `X.Y.Z` texts within int64, `compareVersions` is the precedence of Semantic Versioning. */
  lemma ComparedIsPrecedence(v1: string, v2: string)
    requires IsPlain(v1) && IsPlain(v2) && Small(ValueOf(v1)) && Small(ValueOf(v2))
    ensures Compared(v1, v2) == Precedence(ValueOf(v1), ValueOf(v2))
  {
    var p1, p2 := Split(v1, '.'), Split(v2, '.');
    var a, b := ValueOf(v1), ValueOf(v2);
    assert Atoi(p1[0]) == a.major && Atoi(p2[0]) == b.major;
    assert Atoi(p1[1]) == a.minor && Atoi(p2[1]) == b.minor;
    assert Atoi(p1[2]) == a.patch && Atoi(p2[2]) == b.patch;
    assert CompareFrom(p1, p2, 3) == 0;
    assert CompareFrom(p1, p2, 2) == (if a.patch < b.patch then -1 else if a.patch > b.patch then 1 else 0);
    assert CompareFrom(p1, p2, 1) == (if a.minor < b.minor then -1 else if a.minor > b.minor then 1 else CompareFrom(p1, p2, 2));
  }

  /** Rendered versions compare by precedence. */
  lemma ComparedRendered(a: Version, b: Version)
    requires Small(a) && Small(b)
    ensures Compared(Render(a), Render(b)) == Precedence(a, b)
  {
    RenderIsPlain(a);
    RenderIsPlain(b);
    ComparedIsPrecedence(Render(a), Render(b));
  }

  // ---------------------------------------------------------------- keys

  /**
   * `extractSemver`: the last `/`-piece must split on `-` into exactly two
   * pieces, the first being the version. (Go's `strings.Split` never
   * returns no pieces, so the empty-key error cannot occur.)
   */
  function ExtractSemver(keyOrPath: string): (r: Result<string, string>)
    ensures r.Ok? <==> |Split(LastPiece(keyOrPath, '/'), '-')| == 2
    ensures r.Ok? ==> r.value == BeforeFirst(LastPiece(keyOrPath, '/'), '-')
    ensures r.Err? ==> r.error == "malformed key: " + keyOrPath
  {
    var parts := Split(keyOrPath, '/');
    var filename := parts[|parts| - 1];
    var pieces := Split(filename, '-');
    if |pieces| != 2 then Err("malformed key: " + keyOrPath) else Ok(pieces[0])
  }

  /** `release/<platform>/<version>-<library>`, the layout of the bucket. */
  function ReleaseKey(platform: string, v: Version, library: string): string
  {
    "release/" + platform + "/" + Render(v) + "-" + library
  }

  /** The version of a key of the release layout is the rendered version. */
  lemma ReleaseKeySemver(platform: string, v: Version, library: string)
    requires '/' !in platform && '/' !in library && '-' !in library
    ensures ExtractSemver(ReleaseKey(platform, v, library)) == Ok(Render(v))
  {
    var version := Render(v);
    var name := version + "-" + library;
    RenderCharacters(v);
    assert '/' !in name;
    var key := ReleaseKey(platform, v, library);
    assert key == "release" + ['/'] + (platform + ['/'] + name);
    SplitCons("release", platform + ['/'] + name, '/');
    SplitCons(platform, name, '/');
    SplitNoSep(name, '/');
    assert LastPiece(key, '/') == name;
    assert name == version + ['-'] + library;
    SplitCons(version, library, '-');
    SplitNoSep(library, '-');
  }

  /**
   * The keys `highestRemoteSemVer` takes into account: those whose version
   * extracts and is not empty.
   */
  function Candidate(key: string): (r: Option<string>)
    ensures r.Some? ==> key != "" && r.value != ""
    ensures r.Some? <==> ExtractSemver(key).Ok? && ExtractSemver(key).value != ""
  {
    match ExtractSemver(key)
    case Ok(semver) => if semver == "" then None else Some(semver)
    case Err(_) => None
  }

  // ---------------------------------------------------------------- highest release

  /** The key with the highest version so far, that version, and the key's place in the listing. */
  datatype Best = Best(key: string, semver: string, index: nat)

  /**
   * One turn of `highestRemoteSemVer`'s loop, as intended: a key that is
   * not a candidate is skipped, the first candidate is taken, and a later
   * one replaces it only when its version compares strictly higher than
   * the version kept.
   */
  function Step(keys: seq<string>, i: nat, best: Option<Best>): (r: Option<Best>)
    requires i < |keys|
    ensures r != best ==> Candidate(keys[i]).Some? && r == Some(Best(keys[i], Candidate(keys[i]).value, i))
  {
    match Candidate(keys[i])
    case None => best
    case Some(semver) =>
      if best.None? || Compared(best.value.semver, semver) < 0 then Some(Best(keys[i], semver, i)) else best
  }

  /**
   * The same turn as the loop is written: the version of the new key is
   * compared with the KEY kept so far, not with its version.
   */
  function StepAsWritten(keys: seq<string>, i: nat, best: Option<Best>): (r: Option<Best>)
    requires i < |keys|
    ensures r != best ==> Candidate(keys[i]).Some? && r == Some(Best(keys[i], Candidate(keys[i]).value, i))
  {
    match Candidate(keys[i])
    case None => best
    case Some(semver) =>
      if best.None? || Compared(best.value.key, semver) < 0 then Some(Best(keys[i], semver, i)) else best
  }

  /** The rest of the loop from key `i` on, as intended. */
  function Scan(keys: seq<string>, i: nat, best: Option<Best>): (r: Option<Best>)
    requires i <= |keys|
    ensures r != best ==> r.Some? && Candidate(r.value.key) == Some(r.value.semver)
    decreases |keys| - i
  {
    if i == |keys| then best else Scan(keys, i + 1, Step(keys, i, best))
  }

  /** The rest of the loop from key `i` on, as written. */
  function ScanAsWritten(keys: seq<string>, i: nat, best: Option<Best>): (r: Option<Best>)
    requires i <= |keys|
    decreases |keys| - i
  {
    if i == |keys| then best else ScanAsWritten(keys, i + 1, StepAsWritten(keys, i, best))
  }

  /** `(max_semver, max_s3_key)` at the end of the intended loop; both empty when no key is a candidate. */
  function Highest(keys: seq<string>): (r: (string, string))
    ensures r.0 == "" ==> r.1 == ""
    ensures r.0 != "" ==> Candidate(r.1) == Some(r.0)
  {
    match Scan(keys, 0, None)
    case None => ("", "")
    case Some(b) => (b.semver, b.key)
  }

  /** `(max_semver, max_s3_key)` at the end of the loop as written. */
  function HighestAsWritten(keys: seq<string>): (r: (string, string))
  {
    match ScanAsWritten(keys, 0, None)
    case None => ("", "")
    case Some(b) => (b.semver, b.key)
  }

  /** The candidates' versions, key by key. */
  function Candidates(keys: seq<string>): (cs: seq<Option<string>>)
    ensures |cs| == |keys| && forall k :: 0 <= k < |keys| ==> cs[k] == Candidate(keys[k])
  {
    seq(|keys|, k requires 0 <= k < |keys| => Candidate(keys[k]))
  }

  predicate NoneBefore(cs: seq<Option<string>>, n: nat)
    requires n <= |cs|
  {
    forall k :: 0 <= k < n ==> cs[k].None?
  }

  /** No version among the first `n` compares above `top`. */
  predicate AtMost(cs: seq<Option<string>>, n: nat, top: string)
    requires n <= |cs|
  {
    forall k :: 0 <= k < n && cs[k].Some? ==> Compared(cs[k].value, top) <= 0
  }

  /** Every version among the first `n` compares below `top`. */
  predicate Below(cs: seq<Option<string>>, n: nat, top: string)
    requires n <= |cs|
  {
    forall k :: 0 <= k < n && cs[k].Some? ==> Compared(cs[k].value, top) < 0
  }

  lemma StepFirst(cs: seq<Option<string>>, n: nat, semver: string)
    requires n < |cs| && NoneBefore(cs, n) && cs[n] == Some(semver)
    ensures AtMost(cs, n + 1, semver) && Below(cs, n, semver)
  {
    CompareOrder(semver, semver, semver);
  }

  lemma StepKeep(cs: seq<Option<string>>, n: nat, top: string)
    requires n < |cs| && AtMost(cs, n, top)
    requires cs[n].Some? ==> Compared(top, cs[n].value) >= 0
    ensures AtMost(cs, n + 1, top)
  {
    if cs[n].Some? {
      CompareOrder(top, cs[n].value, top);
    }
  }

  lemma StepReplace(cs: seq<Option<string>>, n: nat, top: string, semver: string)
    requires n < |cs| && AtMost(cs, n, top) && cs[n] == Some(semver) && Compared(top, semver) < 0
    ensures AtMost(cs, n + 1, semver) && Below(cs, n, semver)
  {
    CompareOrder(semver, semver, semver);
    forall k | 0 <= k < n && cs[k].Some?
      ensures Compared(cs[k].value, semver) < 0
    {
      CompareOrder(cs[k].value, top, semver);
    }
  }

  /**
   * `best` is the answer for the first `n` keys: none when none is a
   * candidate; otherwise a candidate whose version no candidate exceeds
   * and every earlier candidate is strictly below.
   */
  predicate IsMax(keys: seq<string>, n: nat, best: Option<Best>)
    requires n <= |keys|
  {
    var cs := Candidates(keys);
    match best
    case None => NoneBefore(cs, n)
    case Some(b) =>
      && b.index < n && keys[b.index] == b.key && cs[b.index] == Some(b.semver)
      && AtMost(cs, n, b.semver) && Below(cs, b.index, b.semver)
  }

  lemma StepKeepsMax(keys: seq<string>, i: nat, best: Option<Best>)
    requires i < |keys| && IsMax(keys, i, best)
    ensures IsMax(keys, i + 1, Step(keys, i, best))
  {
    var cs := Candidates(keys);
    match cs[i]
    case None =>
      if best.Some? {
        StepKeep(cs, i, best.value.semver);
      }
    case Some(semver) =>
      if best.None? {
        StepFirst(cs, i, semver);
      } else if Compared(best.value.semver, semver) < 0 {
        StepReplace(cs, i, best.value.semver, semver);
      } else {
        StepKeep(cs, i, best.value.semver);
      }
  }

  /** Whatever a turn of the loop keeps, the rest of the loop from key `i` on keeps. */
  lemma {:induction false} ScanKeeps(keys: seq<string>, i: nat, best: Option<Best>, inv: (nat, Option<Best>) -> bool)
    requires i <= |keys| && inv(i, best)
    requires forall j: nat, b {:trigger Step(keys, j, b)} :: j < |keys| && inv(j, b) ==> inv(j + 1, Step(keys, j, b))
    ensures inv(|keys|, Scan(keys, i, best))
    decreases |keys| - i
  {
    if i < |keys| {
      var next := Step(keys, i, best);
      assert inv(i + 1, next);
      ScanKeeps(keys, i + 1, next, inv);
      assert Scan(keys, i, best) == Scan(keys, i + 1, next);
    }
  }

  /**
   * The intended loop finds the highest version: empty exactly when no key
   * is a candidate; otherwise the version of a listed key that no
   * candidate exceeds, and the first such key in the listing.
   */
  lemma HighestIsMax(keys: seq<string>)
    ensures Highest(keys).0 == "" <==> forall k :: 0 <= k < |keys| ==> Candidate(keys[k]).None?
    ensures Highest(keys).0 != "" ==>
      exists j :: 0 <= j < |keys| && keys[j] == Highest(keys).1 && Candidate(keys[j]) == Some(Highest(keys).0)
        && (forall k :: 0 <= k < |keys| && Candidate(keys[k]).Some? ==> Compared(Candidate(keys[k]).value, Highest(keys).0) <= 0)
        && (forall k :: 0 <= k < j && Candidate(keys[k]).Some? ==> Compared(Candidate(keys[k]).value, Highest(keys).0) < 0)
  {
    var inv := (j: nat, b: Option<Best>) => j <= |keys| && IsMax(keys, j, b);
    forall j: nat, b | j < |keys| && inv(j, b)
      ensures inv(j + 1, Step(keys, j, b))
    {
      StepKeepsMax(keys, j, b);
    }
    ScanKeeps(keys, 0, None, inv);
    var cs := Candidates(keys);
    var best := Scan(keys, 0, None);
    if best.Some? {
      var j := best.value.index;
      assert keys[j] == Highest(keys).1;
      assert AtMost(cs, |keys|, best.value.semver) && Below(cs, j, best.value.semver);
    } else {
      assert NoneBefore(cs, |keys|);
    }
  }

  /** A key of the release layout compares below any version with a major number above 0: its first `.`-piece is not a number. */
  lemma ReleaseKeyComparesLow(platform: string, v: Version, library: string, semver: Version)
    requires 0 < semver.major <= I64_MAX
    ensures Compared(ReleaseKey(platform, v, library), Render(semver)) == -1
  {
    var key := ReleaseKey(platform, v, library);
    assert key[0] == 'r';
    var first := Split(key, '.')[0];
    assert first == BeforeFirst(key, '.');
    assert first[0] == 'r';
    SplitRender(semver);
    AtoiRoundTrip(semver.major);
  }

  /** Two candidate keys, as written: the second replaces the first when it compares above the first KEY. */
  lemma AsWrittenOfTwo(key1: string, key2: string, semver1: string, semver2: string)
    requires Candidate(key1) == Some(semver1) && Candidate(key2) == Some(semver2)
    requires Compared(key1, semver2) < 0
    ensures HighestAsWritten([key1, key2]) == (semver2, key2)
  {
    var keys := [key1, key2];
    var first := StepAsWritten(keys, 0, None);
    assert first == Some(Best(key1, semver1, 0));
    var second := StepAsWritten(keys, 1, first);
    assert second == Some(Best(key2, semver2, 1));
    assert ScanAsWritten(keys, 1, first) == ScanAsWritten(keys, 2, second) == second;
  }

  /** Two candidate keys, as intended: the first is kept unless the second's version compares above its version. */
  lemma IntendedOfTwo(key1: string, key2: string, semver1: string, semver2: string)
    requires Candidate(key1) == Some(semver1) && Candidate(key2) == Some(semver2)
    requires Compared(semver1, semver2) > 0
    ensures Highest([key1, key2]) == (semver1, key1)
  {
    var keys := [key1, key2];
    var first := Step(keys, 0, None);
    assert first == Some(Best(key1, semver1, 0));
    assert Step(keys, 1, first) == first;
    assert Scan(keys, 1, first) == Scan(keys, 2, first) == first;
  }

  /**
   * As written, the loop keeps the LAST of two release keys whenever that
   * one's major number is above 0, whatever the first one's version.
   */
  lemma AsWrittenPrefersLater(platform: string, v1: Version, v2: Version, library: string)
    requires '/' !in platform && '/' !in library && '-' !in library
    requires 0 < v2.major <= I64_MAX
    ensures HighestAsWritten([ReleaseKey(platform, v1, library), ReleaseKey(platform, v2, library)])
      == (Render(v2), ReleaseKey(platform, v2, library))
  {
    ReleaseKeySemver(platform, v1, library);
    ReleaseKeySemver(platform, v2, library);
    ReleaseKeyComparesLow(platform, v1, library, v2);
    AsWrittenOfTwo(ReleaseKey(platform, v1, library), ReleaseKey(platform, v2, library), Render(v1), Render(v2));
  }

  /** As intended, the higher of two release keys is kept, the first one here. */
  lemma IntendedPrefersHigher(platform: string, v1: Version, v2: Version, library: string)
    requires '/' !in platform && '/' !in library && '-' !in library
    requires Small(v1) && Small(v2) && Precedence(v1, v2) > 0
    ensures Highest([ReleaseKey(platform, v1, library), ReleaseKey(platform, v2, library)])
      == (Render(v1), ReleaseKey(platform, v1, library))
  {
    ReleaseKeySemver(platform, v1, library);
    ReleaseKeySemver(platform, v2, library);
    ComparedRendered(v1, v2);
    IntendedOfTwo(ReleaseKey(platform, v1, library), ReleaseKey(platform, v2, library), Render(v1), Render(v2));
  }

  /**
   * The listing `release/linux-x86_64/2.0.0-libikv.so`,
   * `release/linux-x86_64/1.0.0-libikv.so`: the loop as written settles on
   * 1.0.0, the intended one on 2.0.0.
   */
  lemma OlderReleaseChosen()
    ensures HighestAsWritten([ReleaseKey("linux-x86_64", Version(2, 0, 0), "libikv.so"), ReleaseKey("linux-x86_64", Version(1, 0, 0), "libikv.so")]).0
      == Render(Version(1, 0, 0))
    ensures Highest([ReleaseKey("linux-x86_64", Version(2, 0, 0), "libikv.so"), ReleaseKey("linux-x86_64", Version(1, 0, 0), "libikv.so")]).0
      == Render(Version(2, 0, 0))
  {
    var platform, library := "linux-x86_64", "libikv.so";
    assert '/' !in platform && '/' !in library && '-' !in library;
    AsWrittenPrefersLater(platform, Version(2, 0, 0), Version(1, 0, 0), library);
    IntendedPrefersHigher(platform, Version(2, 0, 0), Version(1, 0, 0), library);
  }

  // ---------------------------------------------------------------- local library

  /** What `<mount>/bin` holds: nothing, a directory that cannot be opened or listed, or the listed names. */
  datatype Dir = Absent | Unopenable(reason: string) | Unlistable(reason: string) | Names(names: seq<string>)

  /** Where a step of `downloadRemoteBinary` fails, with the error text the OS or SDK gives. */
  datatype Fault = NoFault | RemoveFails(reason: string) | MkdirFails(reason: string) | CreateFails(reason: string) | DownloadFails(reason: string)

  /** Whether `GetPathToNativeBinary` downloads: a remote version exists, and the local one is missing or compares lower. */
  predicate Downloads(localSemver: string, remoteSemver: string)
  {
    remoteSemver != "" && (localSemver == "" || Compared(localSemver, remoteSemver) < 0)
  }

  class BinaryManager {
    const mountDir: string
    /** `runtime.GOOS` and `runtime.GOARCH`. */
    const goos: string
    const goarch: string
    /** `ListObjectsV2` on the bucket: the keys under a prefix, or the SDK's error text. */
    const listObjects: string -> Result<seq<string>, string>
    var bin: Dir

    constructor(mountDir: string, goos: string, goarch: string, listObjects: string -> Result<seq<string>, string>, bin: Dir)
      ensures this.mountDir == mountDir && this.goos == goos && this.goarch == goarch
      ensures this.listObjects == listObjects && this.bin == bin
    {
      this.mountDir := mountDir;
      this.goos := goos;
      this.goarch := goarch;
      this.listObjects := listObjects;
      this.bin := bin;
    }

    /**
     * `pathToLocalBinary`: empty when the directory is missing or empty,
     * an error when it cannot be opened or listed, otherwise the path of
     * the first name listed (file or directory alike).
     */
    function PathToLocalBinary(): (r: Result<string, string>)
      reads this
      ensures r.Err? <==> bin.Unopenable? || bin.Unlistable?
      ensures r == Ok("") <==> bin.Absent? || bin == Names([])
      ensures r.Ok? && r.value != "" ==> bin.Names? && r.value == BinDir(mountDir) + "/" + bin.names[0]
    {
      match bin
      case Absent => Ok("")
      case Unopenable(reason) => Err("error opening directory: " + BinDir(mountDir) + " " + reason)
      case Unlistable(reason) => Err("error listing files in directory: " + BinDir(mountDir) + " " + reason)
      case Names(names) => if |names| == 0 then Ok("") else Ok(BinDir(mountDir) + "/" + names[0])
    }

    /** `localSemVer`: `(semver, path)`, both empty when there is no local library. */
    function LocalSemVer(): (r: Result<(string, string), string>)
      reads this
      ensures r.Ok? && r.value.1 == "" ==> r.value.0 == ""
      ensures r.Ok? && r.value.1 != "" ==> PathToLocalBinary() == Ok(r.value.1) && ExtractSemver(r.value.1) == Ok(r.value.0)
    {
      var path :- PathToLocalBinary();
      if path == "" then Ok(("", ""))
      else
        var semver :- ExtractSemver(path);
        Ok((semver, path))
    }

    /** The version of the local library is read from the first listed name alone. */
    lemma LocalSemVerOfName()
      requires bin.Names? && |bin.names| > 0 && '/' !in bin.names[0]
      ensures LocalSemVer().Ok? <==> ExtractSemver(bin.names[0]).Ok?
      ensures LocalSemVer().Ok? ==> LocalSemVer().value == (ExtractSemver(bin.names[0]).value, BinDir(mountDir) + "/" + bin.names[0])
    {
      LastPieceOfPath(BinDir(mountDir), bin.names[0]);
      SplitNoSep(bin.names[0], '/');
    }

    /**
     * `highestRemoteSemVer` as intended: `(max_semver, max_s3_key)` over
     * the keys listed under the platform's prefix.
     */
    function HighestRemote(): (r: Result<(string, string), string>)
      ensures r.Err? ==> PlatformPrefix(goos, goarch).Err? || listObjects(PlatformPrefix(goos, goarch).value).Err?
      ensures r.Ok? ==> (PlatformPrefix(goos, goarch).Ok? && listObjects(PlatformPrefix(goos, goarch).value).Ok?
        && r.value == Highest(listObjects(PlatformPrefix(goos, goarch).value).value))
    {
      var prefix :- PlatformPrefix(goos, goarch);
      match listObjects(prefix)
      case Err(e) => Err("couldn't list objects in bucket " + BUCKET_NAME + ", error " + e)
      case Ok(keys) => Ok(Highest(keys))
    }

    /** `highestRemoteSemVer`, with its loop. */
    method HighestRemoteSemVer() returns (r: Result<(string, string), string>)
      ensures r == HighestRemote()
    {
      var prefix := PlatformPrefix(goos, goarch);
      if prefix.Err? {
        return Err(prefix.error);
      }
      var listed := listObjects(prefix.value);
      if listed.Err? {
        return Err("couldn't list objects in bucket " + BUCKET_NAME + ", error " + listed.error);
      }
      var keys := listed.value;
      var maxKey, maxSemver := "", "";
      ghost var best: Option<Best> := None;
      for i := 0 to |keys|
        invariant best.None? ==> maxKey == "" && maxSemver == ""
        invariant best.Some? ==> maxKey == best.value.key != "" && maxSemver == best.value.semver
        invariant Scan(keys, 0, None) == Scan(keys, i, best)
      {
        var semver := ExtractSemver(keys[i]);
        if semver.Ok? && semver.value != "" {
          if maxKey == "" {
            maxKey, maxSemver := keys[i], semver.value;
            best := Some(Best(keys[i], semver.value, i));
          } else {
            var c := CompareVersions(maxSemver, semver.value);
            if c < 0 {
              maxKey, maxSemver := keys[i], semver.value;
              best := Some(Best(keys[i], semver.value, i));
            }
          }
        }
      }
      return Ok((maxSemver, maxKey));
    }

    /**
     * `downloadRemoteBinary`: the bin directory is removed, made again,
     * and the key's file name created in it and downloaded into. A failed
     * step ends it with that step's error, leaving what was done so far.
     */
    method DownloadRemoteBinary(key: string, fault: Fault) returns (err: Option<string>)
      modifies this
      ensures fault.NoFault? ==> err.None? && bin == Names([LastPiece(key, '/')])
      ensures fault.RemoveFails? ==> err == Some(fault.reason) && bin == old(bin)
      ensures fault.MkdirFails? ==> err == Some(fault.reason) && bin == Absent
      ensures fault.CreateFails? ==> err == Some(fault.reason) && bin == Names([])
      ensures fault.DownloadFails? ==>
        err == Some("couldn't download large object from " + BUCKET_NAME + ":" + key + ". Error: " + fault.reason)
        && bin == Names([LastPiece(key, '/')])
    {
      if fault.RemoveFails? {
        return Some(fault.reason);
      }
      bin := Absent;
      if fault.MkdirFails? {
        return Some(fault.reason);
      }
      bin := Names([]);
      var parts := Split(key, '/');
      var fileName := parts[|parts| - 1];
      if fault.CreateFails? {
        return Some(fault.reason);
      }
      bin := Names([fileName]);
      if fault.DownloadFails? {
        return Some("couldn't download large object from " + BUCKET_NAME + ":" + key + ". Error: " + fault.reason);
      }
      return None;
    }

    /**
     * `GetPathToNativeBinary`: the local library when no remote one is
     * listed or the local one is not older; otherwise the remote one is
     * downloaded and the path read again. An answered path is the local
     * library, and never older than the highest remote version.
     */
    method GetPathToNativeBinary(fault: Fault) returns (r: Result<string, string>)
      modifies this
      ensures old(LocalSemVer()).Err? ==> r == Err(old(LocalSemVer()).error) && bin == old(bin)
      ensures old(LocalSemVer()).Ok? && HighestRemote().Err? ==> r == Err(HighestRemote().error) && bin == old(bin)
      ensures old(LocalSemVer()).Ok? && HighestRemote().Ok? && HighestRemote().value.0 == "" ==>
        bin == old(bin)
        && r == (if old(LocalSemVer()).value.1 == "" then Err("no local or remote native binary found") else Ok(old(LocalSemVer()).value.1))
      ensures old(LocalSemVer()).Ok? && HighestRemote().Ok? && HighestRemote().value.0 != ""
              && !Downloads(old(LocalSemVer()).value.0, HighestRemote().value.0) ==>
        bin == old(bin) && r == Ok(old(LocalSemVer()).value.1)
      ensures old(LocalSemVer()).Ok? && HighestRemote().Ok? && Downloads(old(LocalSemVer()).value.0, HighestRemote().value.0) ==>
        (fault.NoFault? <==> r.Ok?)
        && (fault.NoFault? ==> bin == Names([LastPiece(HighestRemote().value.1, '/')]))
      ensures r.Ok? ==> (LocalSemVer().Ok? && r.value == LocalSemVer().value.1 != ""
        && (HighestRemote().Ok? && HighestRemote().value.0 != "" ==> Compared(LocalSemVer().value.0, HighestRemote().value.0) >= 0))
    {
      var local := LocalSemVer();
      if local.Err? {
        return Err(local.error);
      }
      var remote := HighestRemoteSemVer();
      if remote.Err? {
        return Err(remote.error);
      }
      var (currentSemVer, currentPath) := local.value;
      var (remoteSemVer, remoteKey) := remote.value;
      if remoteSemVer == "" {
        if currentPath == "" {
          return Err("no local or remote native binary found");
        }
        return Ok(currentPath);
      }
      var download := currentSemVer == "";
      if !download {
        var c := CompareVersions(currentSemVer, remoteSemVer);
        download := c < 0;
      }
      if download {
        var err := DownloadRemoteBinary(remoteKey, fault);
        if err.Some? {
          return Err("cannot download remote native binary: " + err.value);
        }
        InstalledSemver(remoteKey, remoteSemVer);
        var installed := LocalSemVer();
        CompareOrder(remoteSemVer, remoteSemVer, remoteSemVer);
        r := match installed
          case Ok((_, path)) => Ok(path)
          case Err(e) => Err(e);
        return;
      }
      CompareOrder(currentSemVer, remoteSemVer, remoteSemVer);
      return Ok(currentPath);
    }

    /** After a download of a candidate key, the local library is that key's file, with the key's version. */
    lemma InstalledSemver(key: string, semver: string)
      requires Candidate(key) == Some(semver) && bin == Names([LastPiece(key, '/')])
      ensures LocalSemVer() == Ok((semver, BinDir(mountDir) + "/" + LastPiece(key, '/')))
    {
      var name := LastPiece(key, '/');
      assert '/' !in name;
      SplitNoSep(name, '/');
      LocalSemVerOfName();
    }
  }
}
