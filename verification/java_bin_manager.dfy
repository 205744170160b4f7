/**
 * The Java client's native-library manager. Release binaries live in the
 * `ikv-binaries` bucket under `release/<os>-<arch>/<x.y.z>-<library>`; the
 * installed one lives in `<mount>/bin`. The manager finds the platform's
 * prefix, the installed version and the highest released one, and replaces
 * the installed library when the release is newer.
 */
module JavaBinaryManager {
  import opened Wrappers
  import opened ByteCodec
  import opened Text
  import opened JavaExceptions
  import opened SemVer
  import opened LocalFiles

  // ------------------------------------------------------------ platform

  /** The operating-system part of `createS3PrefixForPlatform`: Linux before macOS, nothing else. */
  function OsType(osName: string): (r: Option<string>)
    ensures r == Some("linux") <==> Contains(Lower(osName), "linux")
    ensures r == Some("mac") <==> !Contains(Lower(osName), "linux") && Contains(Lower(osName), "mac")
    ensures r.None? <==> !Contains(Lower(osName), "linux") && !Contains(Lower(osName), "mac")
  {
    var name := Lower(osName);
    if Contains(name, "linux") then Some("linux")
    else if Contains(name, "mac") then Some("mac")
    else None
  }

  /** The architecture part: aarch64, or x86_64 also under the name amd64. */
  function Architecture(osArch: string): (r: Option<string>)
    ensures r == Some("aarch64") <==> Contains(Lower(osArch), "aarch64")
    ensures r == Some("x86_64") <==>
      !Contains(Lower(osArch), "aarch64") && (Contains(Lower(osArch), "x86_64") || Contains(Lower(osArch), "amd64"))
    ensures r.None? <==>
      !Contains(Lower(osArch), "aarch64") && !Contains(Lower(osArch), "x86_64") && !Contains(Lower(osArch), "amd64")
  {
    var arch := Lower(osArch);
    if Contains(arch, "aarch64") then Some("aarch64")
    else if Contains(arch, "x86_64") || Contains(arch, "amd64") then Some("x86_64")
    else None
  }

  /**
   * `createS3PrefixForPlatform`: `release/<os>-<arch>` from the lower-cased
   * `os.name` and `os.arch`; Windows and anything unrecognised have no
   * release.
   */
  function PlatformPrefix(osName: string, osArch: string): (r: Option<string>)
    ensures r.Some? <==> OsType(osName).Some? && Architecture(osArch).Some?
    ensures r.Some? ==> r.value == "release/" + OsType(osName).value + "-" + Architecture(osArch).value
    ensures r.Some? ==> exists platform :: r.value == "release/" + platform && '/' !in platform
  {
    var osType, architecture := OsType(osName), Architecture(osArch);
    if osType.None? || architecture.None? then None
    else
      var platform := osType.value + "-" + architecture.value;
      assert '/' !in platform;
      assert "release/" + osType.value + "-" + architecture.value == "release/" + platform;
      Some("release/" + platform)
  }

  /** macOS is recognised whatever the case of its name. */
  lemma MacOsType()
    ensures OsType("Mac OS X") == Some("mac")
  {
    assert Lower("Mac OS X") == "mac os x";
    assert "mac" <= "mac os x";
    MissingChar("mac os x", "linux", 'l');
  }

  /** Windows has no release. */
  lemma NoWindowsOsType()
    ensures OsType("Windows 11") == None
  {
    var name := Lower("Windows 11");
    assert name == "windows 11";
    assert 'l' !in name && 'm' !in name;
    MissingChar(name, "linux", 'l');
    MissingChar(name, "mac", 'm');
  }

  /** The JVM's name amd64 is the x86_64 release. */
  lemma AmdArchitecture()
    ensures Architecture("amd64") == Some("x86_64")
  {
    assert Lower("amd64") == "amd64";
    assert "amd64" <= "amd64";
    MissingChar("amd64", "aarch64", 'r');
  }

  /** An architecture other than aarch64 and x86_64 has no release. */
  lemma NoPowerArchitecture()
    ensures Architecture("ppc64le") == None
  {
    assert Lower("ppc64le") == "ppc64le";
    MissingChar("ppc64le", "aarch64", 'a');
    MissingChar("ppc64le", "x86_64", 'x');
    MissingChar("ppc64le", "amd64", 'a');
  }

  // ------------------------------------------------------------ versions

  /**
   * `Integer.parseInt`: an optional sign and decimal digits whose value is an
   * int; anything else is a NumberFormatException.
   */
  function ParseInt(s: string): (r: Result<int, Thrown>)
    ensures r.Ok? ==> I32_MIN <= r.value <= I32_MAX
    ensures r.Err? ==> r.error == IllegalArgument("For input string: \"" + s + "\"")
    ensures IsDigits(s) && DigitsValue(s) <= I32_MAX ==> r == Ok(DigitsValue(s))
    ensures r.Ok? ==> IsDigits(s) || (|s| > 0 && s[0] in "+-" && IsDigits(s[1..]))
  {
    var signed := |s| > 0 && (s[0] == '-' || s[0] == '+');
    var digits := if signed then s[1..] else s;
    if !IsDigits(digits) then Err(IllegalArgument("For input string: \"" + s + "\""))
    else
      var magnitude: int := DigitsValue(digits);
      var n := if signed && s[0] == '-' then -magnitude else magnitude;
      if I32_MIN <= n <= I32_MAX then Ok(n) else Err(IllegalArgument("For input string: \"" + s + "\""))
  }

  /**
   * `compareSemVer` from part `i` on: both texts' parts are read as ints,
   * `parts1[i]` before `parts2[i]`, and the first pair that differs decides;
   * a missing part is an index out of bounds.
   */
  function CompareParts(parts1: seq<string>, parts2: seq<string>, i: nat): (r: Result<int, Thrown>)
    requires i <= 3
    ensures r.Ok? ==> r.value in {-1, 0, 1}
    decreases 3 - i
  {
    if i == 3 then Ok(0)
    else if i >= |parts1| then Err(Runtime)
    else
      var part1 :- ParseInt(parts1[i]);
      if i >= |parts2| then Err(Runtime)
      else
        var part2 :- ParseInt(parts2[i]);
        if part1 != part2 then Ok(if part1 < part2 then -1 else 1)
        else CompareParts(parts1, parts2, i + 1)
  }

  /** `compareSemVer(version1, version2)`: the texts split on dots, compared part by part. */
  function Compared(version1: string, version2: string): (r: Result<int, Thrown>)
    ensures r.Ok? ==> r.value in {-1, 0, 1}
  {
    CompareParts(JavaSplit(version1, '.'), JavaSplit(version2, '.'), 0)
  }

  /** `compareSemVer`, the loop over the three parts. */
  method CompareSemVer(version1: string, version2: string) returns (r: Result<int, Thrown>)
    ensures r == Compared(version1, version2)
  {
    var parts1, parts2 := JavaSplit(version1, '.'), JavaSplit(version2, '.');
    for i := 0 to 3
      invariant CompareParts(parts1, parts2, 0) == CompareParts(parts1, parts2, i)
    {
      if i >= |parts1| {
        return Err(Runtime);
      }
      var part1 := ParseInt(parts1[i]);
      if part1.Err? {
        return Err(part1.error);
      }
      if i >= |parts2| {
        return Err(Runtime);
      }
      var part2 := ParseInt(parts2[i]);
      if part2.Err? {
        return Err(part2.error);
      }
      if part1.value != part2.value {
        return Ok(if part1.value < part2.value then -1 else 1);
      }
    }
    return Ok(0);
  }

  /** A plain version whose three numbers are ints. */
  predicate Fits(version: string)
  {
    IsPlain(version)
    && ValueOf(version).major <= I32_MAX && ValueOf(version).minor <= I32_MAX && ValueOf(version).patch <= I32_MAX
  }

  /** On plain versions that fit, `compareSemVer` is the precedence of Semantic Versioning. */
  lemma ComparedIsPrecedence(version1: string, version2: string)
    requires Fits(version1) && Fits(version2)
    ensures Compared(version1, version2) == Ok(Precedence(ValueOf(version1), ValueOf(version2)))
  {
    JavaSplitPlain(version1);
    JavaSplitPlain(version2);
  }

  /**
   * A second version whose first part is not an int (a local file such as
   * `libikv.so`, named without a version) makes the comparison throw a
   * NumberFormatException.
   */
  lemma ComparedRejectsNonNumeric(version1: string, version2: string)
    requires Fits(version1)
    requires |JavaSplit(version2, '.')| > 0 && ParseInt(BeforeFirst(version2, '.')).Err?
    ensures Compared(version1, version2) == Err(ParseInt(BeforeFirst(version2, '.')).error)
  {
    JavaSplitPlain(version1);
    JavaSplitFirst(version2, '.');
  }

  // ------------------------------------------------------------ remote keys

  /** An object of the bucket listing. */
  datatype S3Object = S3Object(key: string)

  /**
   * `getOptionalSemVersion`: a key of three `/`-pieces whose third piece
   * starts with `\d+\.\d+\.\d+` before its first `-`; a third piece of dashes
   * only has no first `-`-piece and throws.
   */
  function GetOptionalSemVersion(key: string): (r: Result<Option<string>, Thrown>)
    ensures r.Err? ==> r.error == Runtime
    ensures r.Ok? && r.value.Some? ==> IsPlain(r.value.value)
  {
    var parts := JavaSplit(key, '/');
    if |parts| != 3 then Ok(None)
    else
      var pieces := JavaSplit(parts[2], '-');
      if |pieces| == 0 then Err(Runtime)
      else if IsPlain(pieces[0]) then Ok(Some(pieces[0])) else Ok(None)
  }

  /**
   * A key with a version has three `/`-pieces, and the version is what
   * precedes the first `-` of the third; any other number of pieces means no
   * version.
   */
  lemma KeyVersionShape(key: string)
    ensures |JavaSplit(key, '/')| != 3 ==> GetOptionalSemVersion(key) == Ok(None)
    ensures GetOptionalSemVersion(key).Ok? && GetOptionalSemVersion(key).value.Some? ==>
      |JavaSplit(key, '/')| == 3 && GetOptionalSemVersion(key).value.value == BeforeFirst(JavaSplit(key, '/')[2], '-')
  {
    var parts := JavaSplit(key, '/');
    if |parts| == 3 && |JavaSplit(parts[2], '-')| > 0 {
      JavaSplitFirst(parts[2], '-');
    }
  }

  /** The keys of the release layout are recognised, with their version. */
  lemma ReleaseKeyVersion(platform: string, v: Version, library: string)
    requires '/' !in platform && '/' !in library
    ensures GetOptionalSemVersion("release/" + platform + "/" + Render(v) + "-" + library) == Ok(Some(Render(v)))
  {
    var name := Render(v) + "-" + library;
    assert '/' !in name by {
      RenderCharacters(v);
    }
    KeyPieces(platform, name);
    assert "release/" + platform + "/" + Render(v) + "-" + library == "release/" + platform + "/" + name;
    PiecesOfVersionedName(v, library);
    RenderIsPlain(v);
  }

  /** A key of the release layout splits into `release`, the platform and the file name. */
  lemma KeyPieces(platform: string, name: string)
    requires '/' !in platform && '/' !in name && name != ""
    ensures JavaSplit("release/" + platform + "/" + name, '/') == ["release", platform, name]
  {
    var key := "release/" + platform + "/" + name;
    calc {
      Split(key, '/');
      { assert key == "release" + ['/'] + (platform + ['/'] + name); }
      Split("release" + ['/'] + (platform + ['/'] + name), '/');
      { SplitCons("release", platform + ['/'] + name, '/'); }
      ["release"] + Split(platform + ['/'] + name, '/');
      { SplitCons(platform, name, '/'); SplitNoSep(name, '/'); }
      ["release", platform, name];
    }
    JavaSplitOfNonEmptyLast(key, '/');
  }

  /** A file named `<version>-<library>` has the version as its first `-`-piece. */
  lemma PiecesOfVersionedName(v: Version, library: string)
    ensures |JavaSplit(Render(v) + "-" + library, '-')| > 0
    ensures JavaSplit(Render(v) + "-" + library, '-')[0] == Render(v)
  {
    var version := Render(v);
    var name := version + "-" + library;
    RenderCharacters(v);
    assert name == version + ['-'] + library;
    SplitCons(version, library, '-');
    assert Split(name, '-')[0] == version != "";
    assert '-' in name by {
      assert name[|version|] == '-';
    }
    JavaSplitFirst(name, '-');
  }

  // ------------------------------------------------------------ highest release

  /** The highest version seen so far and the index of its object. */
  datatype Best = Best(semVer: string, index: nat)

  /**
   * One turn of `maxSemVerS3Object`'s loop on object `i`: a key without a
   * version is skipped, the first version found is taken, and a later one
   * replaces it only when it compares strictly higher.
   */
  function Step(objects: seq<S3Object>, i: nat, best: Option<Best>): (r: Result<Option<Best>, Thrown>)
    requires i < |objects|
    ensures r.Ok? && r.value != best ==>
      r.value.Some? && r.value.value.index == i && GetOptionalSemVersion(objects[i].key) == Ok(Some(r.value.value.semVer))
  {
    var semVer :- GetOptionalSemVersion(objects[i].key);
    if semVer.None? then Ok(best)
    else if best.None? then Ok(Some(Best(semVer.value, i)))
    else
      var c :- Compared(semVer.value, best.value.semVer);
      if c > 0 then Ok(Some(Best(semVer.value, i))) else Ok(best)
  }

  /** `maxSemVerS3Object`'s loop from object `i` on, with `best` found before it. */
  function Scan(objects: seq<S3Object>, i: nat, best: Option<Best>): (r: Result<Option<Best>, Thrown>)
    requires i <= |objects|
    requires best.Some? ==> best.value.index < |objects|
    ensures r.Ok? && r.value.Some? ==> r.value.value.index < |objects|
    ensures r.Ok? && r.value.Some? && r.value != best ==>
      GetOptionalSemVersion(objects[r.value.value.index].key) == Ok(Some(r.value.value.semVer))
    decreases |objects| - i
  {
    if i == |objects| then Ok(best)
    else
      var next :- Step(objects, i, best);
      Scan(objects, i + 1, next)
  }

  /** `maxSemVerS3Object`: the object holding the highest version of the listing, if any. */
  function MaxObject(objects: seq<S3Object>): (r: Result<Option<S3Object>, Thrown>)
    ensures r.Ok? && r.value.Some? ==> r.value.value in objects && IsVersioned(r.value.value.key)
  {
    var best :- Scan(objects, 0, None);
    if best.None? then Ok(None) else Ok(Some(objects[best.value.index]))
  }

  /** A key with a version. */
  predicate IsVersioned(key: string)
  {
    GetOptionalSemVersion(key).Ok? && GetOptionalSemVersion(key).value.Some?
  }

  /** The loop's variables hold the version and the object of `best`. */
  predicate Holds(objects: seq<S3Object>, best: Option<Best>, highestSemVer: Option<string>, objectWithHighestSemVer: Option<S3Object>)
  {
    match best
    case None => highestSemVer.None? && objectWithHighestSemVer.None?
    case Some(b) => b.index < |objects| && highestSemVer == Some(b.semVer) && objectWithHighestSemVer == Some(objects[b.index])
  }

  /** `maxSemVerS3Object`, the loop over the listing. */
  method MaxSemVerS3Object(objects: seq<S3Object>) returns (r: Result<Option<S3Object>, Thrown>)
    ensures r == MaxObject(objects)
  {
    if |objects| == 0 {
      return Ok(None);
    }
    var highestSemVer: Option<string> := None;
    var objectWithHighestSemVer: Option<S3Object> := None;
    ghost var best: Option<Best> := None;
    for i := 0 to |objects|
      invariant best.Some? ==> best.value.index < i
      invariant Scan(objects, 0, None) == Scan(objects, i, best)
      invariant Holds(objects, best, highestSemVer, objectWithHighestSemVer)
    {
      var next := ConsiderObject(objects, i, highestSemVer, objectWithHighestSemVer, best);
      if next.Err? {
        return Err(next.error);
      }
      highestSemVer, objectWithHighestSemVer := next.value.0, next.value.1;
      best := Step(objects, i, best).value;
    }
    return Ok(objectWithHighestSemVer);
  }

  /** The body of `maxSemVerS3Object`'s loop, on object `i`. */
  method ConsiderObject(objects: seq<S3Object>, i: nat, highestSemVer: Option<string>, objectWithHighestSemVer: Option<S3Object>, ghost best: Option<Best>)
    returns (r: Result<(Option<string>, Option<S3Object>), Thrown>)
    requires i < |objects| && Holds(objects, best, highestSemVer, objectWithHighestSemVer)
    ensures r.Err? <==> Step(objects, i, best).Err?
    ensures r.Err? ==> r.error == Step(objects, i, best).error
    ensures r.Ok? ==> Holds(objects, Step(objects, i, best).value, r.value.0, r.value.1)
  {
    var maybeSemVer := GetOptionalSemVersion(objects[i].key);
    if maybeSemVer.Err? {
      return Err(maybeSemVer.error);
    }
    if maybeSemVer.value.None? {
      return Ok((highestSemVer, objectWithHighestSemVer));
    }
    var semVer := maybeSemVer.value.value;
    if highestSemVer.None? {
      return Ok((Some(semVer), Some(objects[i])));
    }
    var c := CompareSemVer(semVer, highestSemVer.value);
    if c.Err? {
      return Err(c.error);
    }
    if c.value > 0 {
      return Ok((Some(semVer), Some(objects[i])));
    }
    return Ok((highestSemVer, objectWithHighestSemVer));
  }

  /** The version of object `i`, when its key has one. */
  function VersionAt(objects: seq<S3Object>, i: nat): Option<Version>
    requires i < |objects|
  {
    match GetOptionalSemVersion(objects[i].key)
    case Ok(Some(s)) => Some(ValueOf(s))
    case _ => None
  }

  /** Every key either has no version or a plain one whose numbers are ints. */
  predicate Readable(objects: seq<S3Object>)
  {
    forall i :: 0 <= i < |objects| ==> ReadableKey(objects[i].key)
  }

  predicate ReadableKey(key: string)
  {
    GetOptionalSemVersion(key).Ok?
    && (GetOptionalSemVersion(key).value.Some? ==> Fits(GetOptionalSemVersion(key).value.value))
  }

  /** The versions of the listing's keys, in order. */
  function Versions(objects: seq<S3Object>): (vs: seq<Option<Version>>)
    ensures |vs| == |objects| && forall i :: 0 <= i < |objects| ==> vs[i] == VersionAt(objects, i)
  {
    seq(|objects|, i requires 0 <= i < |objects| => VersionAt(objects, i))
  }

  /** No version among the first `n`. */
  predicate NoneBefore(vs: seq<Option<Version>>, n: nat)
    requires n <= |vs|
  {
    forall i :: 0 <= i < n ==> vs[i].None?
  }

  /** Every version among the first `n` is at most `top`. */
  predicate AtMost(vs: seq<Option<Version>>, n: nat, top: Version)
    requires n <= |vs|
  {
    forall i :: 0 <= i < n && vs[i].Some? ==> Precedence(vs[i].value, top) <= 0
  }

  /** Every version among the first `n` is below `top`. */
  predicate Below(vs: seq<Option<Version>>, n: nat, top: Version)
    requires n <= |vs|
  {
    forall i :: 0 <= i < n && vs[i].Some? ==> Precedence(vs[i].value, top) < 0
  }

  /** `best` is the first object of highest version among the first `n`. */
  predicate IsHighest(objects: seq<S3Object>, n: nat, best: Best)
    requires n <= |objects|
  {
    var vs := Versions(objects);
    best.index < n && Fits(best.semVer) && vs[best.index] == Some(ValueOf(best.semVer))
    && AtMost(vs, n, ValueOf(best.semVer)) && Below(vs, best.index, ValueOf(best.semVer))
  }

  lemma StepFirst(vs: seq<Option<Version>>, n: nat, candidate: Version)
    requires n < |vs| && NoneBefore(vs, n) && vs[n] == Some(candidate)
    ensures AtMost(vs, n + 1, candidate) && Below(vs, n, candidate)
  {
    assert Precedence(candidate, candidate) == 0;
  }

  lemma StepKeep(vs: seq<Option<Version>>, n: nat, top: Version)
    requires n < |vs| && AtMost(vs, n, top)
    requires vs[n].Some? ==> Precedence(vs[n].value, top) <= 0
    ensures AtMost(vs, n + 1, top)
  {
  }

  lemma StepReplace(vs: seq<Option<Version>>, n: nat, top: Version, candidate: Version)
    requires n < |vs| && AtMost(vs, n, top) && vs[n] == Some(candidate)
    requires Precedence(candidate, top) > 0
    ensures AtMost(vs, n + 1, candidate) && Below(vs, n, candidate)
  {
    PrecedenceOrder(candidate, top, candidate);
    forall i | 0 <= i < n && vs[i].Some?
      ensures Precedence(vs[i].value, candidate) < 0
    {
      PrecedenceOrder(vs[i].value, top, candidate);
    }
  }

  /** What the scan knows after the first `n` objects: no version yet, or the first highest one. */
  predicate Found(objects: seq<S3Object>, n: nat, best: Option<Best>)
    requires n <= |objects|
  {
    match best
    case None => NoneBefore(Versions(objects), n)
    case Some(b) => IsHighest(objects, n, b)
  }

  /** One step of the scan over a readable key keeps `Found`. */
  lemma StepFound(objects: seq<S3Object>, k: nat, best: Option<Best>)
    requires k < |objects| && ReadableKey(objects[k].key) && Found(objects, k, best)
    ensures Step(objects, k, best).Ok? && Found(objects, k + 1, Step(objects, k, best).value)
    ensures best.Some? ==> best.value.index < k
    ensures Step(objects, k, best).value.Some? ==> Step(objects, k, best).value.value.index <= k
  {
    var vs := Versions(objects);
    var semVer := GetOptionalSemVersion(objects[k].key).value;
    if semVer.None? {
      assert vs[k].None?;
      if best.Some? {
        StepKeep(vs, k, ValueOf(best.value.semVer));
      }
    } else {
      var candidate := ValueOf(semVer.value);
      assert vs[k] == Some(candidate);
      if best.None? {
        StepFirst(vs, k, candidate);
      } else {
        var top := ValueOf(best.value.semVer);
        ComparedIsPrecedence(semVer.value, best.value.semVer);
        if Precedence(candidate, top) > 0 {
          StepReplace(vs, k, top, candidate);
        } else {
          StepKeep(vs, k, top);
        }
      }
    }
  }

  /**
   * On a readable listing the scan never throws and ends with the highest
   * version: none is above it, every version before it is below it (the
   * first of equal versions wins), and it finds none only when no key has a
   * version.
   */
  lemma {:induction false} ScanFinds(objects: seq<S3Object>, i: nat, best: Option<Best>)
    requires i <= |objects| && Readable(objects) && Found(objects, i, best)
    requires best.Some? ==> best.value.index < i
    ensures Scan(objects, i, best).Ok? && Found(objects, |objects|, Scan(objects, i, best).value)
    decreases |objects| - i
  {
    if i < |objects| {
      StepFound(objects, i, best);
      var next := Step(objects, i, best).value;
      ScanFinds(objects, i + 1, next);
    }
  }

  /** `maxSemVerS3Object` on a readable listing: the first object of highest precedence, or none. */
  lemma MaxObjectIsHighest(objects: seq<S3Object>)
    requires Readable(objects)
    ensures MaxObject(objects).Ok?
    ensures MaxObject(objects).value.None? <==> NoneBefore(Versions(objects), |objects|)
    ensures MaxObject(objects).value.Some? ==>
      var best := Scan(objects, 0, None).value.value;
      IsHighest(objects, |objects|, best) && MaxObject(objects).value.value == objects[best.index]
  {
    ScanFinds(objects, 0, None);
  }

  // ------------------------------------------------------------ local binary

  /** The index of the first entry that is not a directory. */
  function FirstFile(entries: seq<DirEntry>): (r: Option<nat>)
    ensures r.None? <==> forall i :: 0 <= i < |entries| ==> entries[i].isDirectory
    ensures r.Some? ==> r.value < |entries| && !entries[r.value].isDirectory
    ensures r.Some? ==> forall i :: 0 <= i < r.value ==> entries[i].isDirectory
    decreases |entries|
  {
    if |entries| == 0 then None
    else if !entries[0].isDirectory then Some(0)
    else
      match FirstFile(entries[1..])
      case None => None
      case Some(k) => Some(k + 1)
  }

  /**
   * `pathToCurrentNativeBinary`: no path without `<mount>/bin` or without a
   * file in it; otherwise the first file's path.
   */
  function PathToCurrent(mountDirectory: string, bin: Option<seq<DirEntry>>): (r: Option<string>)
    ensures r.None? <==> bin.None? || FirstFile(bin.value).None?
    ensures r.Some? ==> r.value == BinDir(mountDirectory) + "/" + bin.value[FirstFile(bin.value).value].name
  {
    if bin.None? then None
    else
      match FirstFile(bin.value)
      case None => None
      case Some(k) => Some(BinDir(mountDirectory) + "/" + bin.value[k].name)
  }

  /**
   * `currentSemVer`: the installed file's name (the last `/`-piece of its
   * path) up to its first `-`; a name of dashes only throws.
   */
  function CurrentSemVer(mountDirectory: string, bin: Option<seq<DirEntry>>): (r: Result<Option<string>, Thrown>)
    ensures r.Err? ==> r.error == Runtime
    ensures r.Ok? ==> (r.value.None? <==> PathToCurrent(mountDirectory, bin).None?)
  {
    match PathToCurrent(mountDirectory, bin)
    case None => Ok(None)
    case Some(path) =>
      var parts := JavaSplit(path, '/');
      if |parts| == 0 then Err(Runtime)
      else
        var pieces := JavaSplit(parts[|parts| - 1], '-');
        if |pieces| == 0 then Err(Runtime) else Ok(Some(pieces[0]))
  }

  /**
   * A first file named without `/` and not starting with `-` gives as the
   * installed version what precedes the first `-` of its name.
   */
  lemma CurrentSemVerOfName(mountDirectory: string, entries: seq<DirEntry>, k: nat)
    requires FirstFile(entries) == Some(k)
    requires '/' !in entries[k].name && entries[k].name != "" && entries[k].name[0] != '-'
    ensures CurrentSemVer(mountDirectory, Some(entries)) == Ok(Some(BeforeFirst(entries[k].name, '-')))
  {
    var name := entries[k].name;
    JavaLastPieceOfPath(BinDir(mountDirectory), name);
    FirstPieceOfName(name);
  }

  /** The last `/`-piece of `<dir>/<name>` is the name. */
  lemma JavaLastPieceOfPath(dir: string, name: string)
    requires '/' !in name && name != ""
    ensures |JavaSplit(dir + "/" + name, '/')| > 0
    ensures JavaSplit(dir + "/" + name, '/')[|JavaSplit(dir + "/" + name, '/')| - 1] == name
  {
    LastPieceOfPath(dir, name);
    JavaSplitOfNonEmptyLast(dir + "/" + name, '/');
  }

  /** A name not starting with `-` has a first `-`-piece: the text before its first `-`. */
  lemma FirstPieceOfName(name: string)
    requires name != "" && name[0] != '-'
    ensures |JavaSplit(name, '-')| > 0 && JavaSplit(name, '-')[0] == BeforeFirst(name, '-')
  {
    assert BeforeFirst(name, '-') != "";
    JavaSplitFirst(name, '-');
  }

  // ------------------------------------------------------------ decision

  /**
   * Whether `getPathToNativeBinary` replaces the installed library: the
   * installed version is read first, then the highest release; with no
   * release nothing is replaced, with no installed version the release is
   * installed, and otherwise it is when it compares higher.
   */
  function Upgrade(current: Result<Option<string>, Thrown>, highest: Result<Option<string>, Thrown>): (r: Result<bool, Thrown>)
    ensures current.Err? ==> r == Err(current.error)
    ensures current.Ok? && highest.Err? ==> r == Err(highest.error)
    ensures current.Ok? && highest.Ok? && highest.value.None? ==> r == Ok(false)
    ensures current.Ok? && current.value.None? && highest.Ok? && highest.value.Some? ==> r == Ok(true)
  {
    var currentSemVer :- current;
    var highestSemVer :- highest;
    if highestSemVer.None? then Ok(false)
    else if currentSemVer.None? then Ok(true)
    else
      var c :- Compared(highestSemVer.value, currentSemVer.value);
      Ok(c > 0)
  }

  /** Between two versions that fit, the release replaces the installed library exactly when it is of higher precedence. */
  lemma UpgradeWhenHigher(current: string, highest: string)
    requires Fits(current) && Fits(highest)
    ensures Upgrade(Ok(Some(current)), Ok(Some(highest))) == Ok(Precedence(ValueOf(highest), ValueOf(current)) > 0)
  {
    ComparedIsPrecedence(highest, current);
  }

  /** Once the highest release is installed, the same listing replaces nothing. */
  lemma NoUpgradeOfSame(semVer: string)
    requires Fits(semVer)
    ensures Upgrade(Ok(Some(semVer)), Ok(Some(semVer))) == Ok(false)
  {
    UpgradeWhenHigher(semVer, semVer);
  }

  /**
   * `clearLocalNativeBinaries` on the listed entries: each is deleted in
   * turn, and the first that cannot be deleted stops the clearing with an
   * IllegalArgumentException naming it; what is left and the exception.
   */
  function Cleared(mountDirectory: string, entries: seq<DirEntry>, deletable: DirEntry -> bool): (r: (seq<DirEntry>, Option<Thrown>))
    ensures r.1.None? ==> r.0 == []
    decreases |entries|
  {
    if |entries| == 0 then ([], None)
    else if !deletable(entries[0]) then
      (entries, Some(IllegalArgument("Could not delete: " + BinDir(mountDirectory) + "/" + entries[0].name)))
    else Cleared(mountDirectory, entries[1..], deletable)
  }

  /**
   * Clearing deletes a prefix of the entries, all deletable; it succeeds
   * exactly when every entry is deletable, and otherwise stops at the first
   * that is not, which it names.
   */
  lemma {:induction false} ClearedStopsAtFirst(mountDirectory: string, entries: seq<DirEntry>, deletable: DirEntry -> bool)
    ensures var r := Cleared(mountDirectory, entries, deletable);
      (r.1.None? <==> forall i :: 0 <= i < |entries| ==> deletable(entries[i]))
      && |r.0| <= |entries| && r.0 == entries[|entries| - |r.0|..]
      && (forall i :: 0 <= i < |entries| - |r.0| ==> deletable(entries[i]))
      && (r.1.Some? ==> |r.0| > 0 && !deletable(r.0[0]))
      && (r.1.Some? ==> r.1.value == IllegalArgument("Could not delete: " + BinDir(mountDirectory) + "/" + r.0[0].name))
    decreases |entries|
  {
    if |entries| > 0 && deletable(entries[0]) {
      ClearedStopsAtFirst(mountDirectory, entries[1..], deletable);
      var r := Cleared(mountDirectory, entries[1..], deletable);
      assert entries[1..][|entries[1..]| - |r.0|..] == entries[|entries| - |r.0|..];
    }
  }

  /** The entries with a given name removed. */
  function WithoutName(entries: seq<DirEntry>, name: string): (r: seq<DirEntry>)
    ensures forall e :: e in r <==> e in entries && e.name != name
    decreases |entries|
  {
    if |entries| == 0 then []
    else if entries[0].name == name then WithoutName(entries[1..], name)
    else [entries[0]] + WithoutName(entries[1..], name)
  }

  /** The third `/`-piece of a key: the file the release is written to. */
  function KeyFileName(key: string): Option<string>
  {
    var parts := JavaSplit(key, '/');
    if |parts| < 3 then None else Some(parts[2])
  }

  /**
   * The native-library manager. `bin` is the content of `<mount>/bin`
   * (None when it does not exist); `listObjects` is the bucket's listing
   * under a prefix, and `osName` and `osArch` are the JVM's properties.
   */
  class NativeBinaryManager {
    const mountDirectory: string
    const osName: string
    const osArch: string
    const listObjects: string -> seq<S3Object>
    var bin: Option<seq<DirEntry>>

    constructor(mountDirectory: string, osName: string, osArch: string, listObjects: string -> seq<S3Object>, bin: Option<seq<DirEntry>>)
      ensures this.mountDirectory == mountDirectory && this.osName == osName && this.osArch == osArch
      ensures this.listObjects == listObjects && this.bin == bin
    {
      this.mountDirectory := mountDirectory;
      this.osName := osName;
      this.osArch := osArch;
      this.listObjects := listObjects;
      this.bin := bin;
    }

    /** `highestAvailableSemVerS3Object`: no object without a platform prefix; otherwise the highest of the prefix's listing. */
    function HighestObject(): (r: Result<Option<S3Object>, Thrown>)
      ensures PlatformPrefix(osName, osArch).None? ==> r == Ok(None)
      ensures PlatformPrefix(osName, osArch).Some? ==> r == MaxObject(listObjects(PlatformPrefix(osName, osArch).value))
    {
      match PlatformPrefix(osName, osArch)
      case None => Ok(None)
      case Some(prefix) => MaxObject(listObjects(prefix))
    }

    method HighestAvailableSemVerS3Object() returns (r: Result<Option<S3Object>, Thrown>)
      ensures r == HighestObject()
    {
      var prefix := PlatformPrefix(osName, osArch);
      if prefix.None? {
        return Ok(None);
      }
      r := MaxSemVerS3Object(listObjects(prefix.value));
    }

    /** `highestAvailableSemVer`: the highest object's key, third `/`-piece, up to its first `-`. */
    function HighestSemVer(): (r: Result<Option<string>, Thrown>)
    {
      var found :- HighestObject();
      if found.None? then Ok(None)
      else
        var parts := JavaSplit(found.value.key, '/');
        if |parts| < 3 then Err(Runtime)
        else
          var pieces := JavaSplit(parts[2], '-');
          if |pieces| == 0 then Err(Runtime) else Ok(Some(pieces[0]))
    }

    /** The highest version is the one the scan compared: that of the highest object's key, never an error of its own. */
    lemma HighestSemVerOfObject()
      ensures HighestObject().Err? ==> HighestSemVer() == Err(HighestObject().error)
      ensures HighestObject().Ok? ==>
        (HighestSemVer().Ok? && (HighestSemVer().value.None? <==> HighestObject().value.None?))
      ensures HighestObject().Ok? && HighestObject().value.Some? ==>
        Ok(HighestSemVer().value) == GetOptionalSemVersion(HighestObject().value.value.key)
        && KeyFileName(HighestObject().value.value.key).Some?
    {
      var found := HighestObject();
      if found.Ok? && found.value.Some? {
        KeyVersionShape(found.value.value.key);
      }
    }

    method HighestAvailableSemVer() returns (r: Result<Option<string>, Thrown>)
      ensures r == HighestSemVer()
    {
      var found := HighestAvailableSemVerS3Object();
      if found.Err? {
        return Err(found.error);
      }
      if found.value.None? {
        return Ok(None);
      }
      var parts := JavaSplit(found.value.value.key, '/');
      if |parts| < 3 {
        return Err(Runtime);
      }
      var pieces := JavaSplit(parts[2], '-');
      if |pieces| == 0 {
        return Err(Runtime);
      }
      return Ok(Some(pieces[0]));
    }

    /** `clearLocalNativeBinaries`, the loop deleting the entries of `<mount>/bin`. */
    method ClearLocalNativeBinaries(deletable: DirEntry -> bool) returns (failure: Option<Thrown>)
      modifies this
      ensures old(bin).None? ==> bin == old(bin) && failure.None?
      ensures old(bin).Some? ==>
        var cleared := Cleared(mountDirectory, old(bin).value, deletable);
        bin == Some(cleared.0) && failure == cleared.1
    {
      if bin.None? {
        return None;
      }
      var files := bin.value;
      for i := 0 to |files|
        invariant bin == Some(files[i..])
        invariant Cleared(mountDirectory, files, deletable) == Cleared(mountDirectory, files[i..], deletable)
      {
        if !deletable(files[i]) {
          return Some(IllegalArgument("Could not delete: " + BinDir(mountDirectory) + "/" + files[i].name));
        }
        bin := Some(files[i + 1..]);
        assert files[i..][1..] == files[i + 1..];
      }
      return None;
    }

    /**
     * `downloadHighestAvailableSemVerNativeBinary`: nothing without a
     * highest object; otherwise `<mount>/bin` is created and the object
     * written there under its key's third `/`-piece. `writeFails` stands
     * for a failed fetch or write, which surfaces as an IOException.
     */
    method DownloadHighestAvailableSemVerNativeBinary(writeFails: bool) returns (failure: Option<Thrown>)
      modifies this
      ensures HighestObject().Err? ==> failure == Some(HighestObject().error) && bin == old(bin)
      ensures HighestObject() == Ok(None) ==> failure.None? && bin == old(bin)
      ensures HighestObject().Ok? && HighestObject().value.Some? ==>
        var fileName := KeyFileName(HighestObject().value.value.key);
        (fileName.None? ==> failure == Some(Runtime) && bin == Some(old(bin).GetOr([])))
        && (fileName.Some? && writeFails ==> failure == Some(Checked) && bin == Some(old(bin).GetOr([])))
        && (fileName.Some? && !writeFails ==>
              failure.None? && bin == Some(WithoutName(old(bin).GetOr([]), fileName.value) + [DirEntry(fileName.value, false)]))
    {
      var found := HighestAvailableSemVerS3Object();
      if found.Err? {
        return Some(found.error);
      }
      if found.value.None? {
        return None;
      }
      bin := Some(bin.GetOr([]));
      var parts := JavaSplit(found.value.value.key, '/');
      if |parts| < 3 {
        return Some(Runtime);
      }
      var fileName := parts[2];
      if writeFails {
        return Some(Checked);
      }
      bin := Some(WithoutName(bin.value, fileName) + [DirEntry(fileName, false)]);
      return None;
    }

    /**
     * The replacement step of `getPathToNativeBinary`: clear `<mount>/bin`,
     * then download the highest release into it. Afterwards the installed
     * version is the highest one.
     */
    method ReplaceWithHighest(deletable: DirEntry -> bool, writeFails: bool) returns (failure: Option<Thrown>)
      requires HighestObject().Ok? && HighestObject().value.Some?
      modifies this
      ensures var cleared := Cleared(mountDirectory, old(bin).GetOr([]), deletable);
        (cleared.1.Some? ==> failure == cleared.1 && bin == Some(cleared.0))
        && (cleared.1.None? && writeFails ==> failure == Some(Checked) && bin == Some([]))
      ensures Cleared(mountDirectory, old(bin).GetOr([]), deletable).1.None? && !writeFails ==>
        var fileName := KeyFileName(HighestObject().value.value.key).value;
        failure.None? && bin == Some([DirEntry(fileName, false)])
        && PathToCurrent(mountDirectory, bin) == Some(BinDir(mountDirectory) + "/" + fileName)
        && CurrentSemVer(mountDirectory, bin) == HighestSemVer()
    {
      HighestSemVerOfObject();
      failure := ClearLocalNativeBinaries(deletable);
      if failure.Some? {
        return;
      }
      ghost var fileName := KeyFileName(HighestObject().value.value.key).value;
      assert bin.GetOr([]) == [];
      failure := DownloadHighestAvailableSemVerNativeBinary(writeFails);
      if failure.None? {
        ghost var installed := WithoutName([], fileName) + [DirEntry(fileName, false)];
        assert installed == [DirEntry(fileName, false)];
        assert bin == Some(installed);
        InstalledIsHighest();
      }
    }

    /**
     * `getPathToNativeBinary`: the installed library's path, after replacing
     * it with the highest release when `Upgrade` says so; a failed deletion
     * or download is passed on.
     */
    method GetPathToNativeBinary(deletable: DirEntry -> bool, writeFails: bool) returns (r: Result<Option<string>, Thrown>)
      modifies this
      ensures var decision := Upgrade(CurrentSemVer(mountDirectory, old(bin)), HighestSemVer());
        (decision.Err? ==> r == Err(decision.error) && bin == old(bin))
        && (decision == Ok(false) ==> r == Ok(PathToCurrent(mountDirectory, old(bin))) && bin == old(bin))
      ensures Upgrade(CurrentSemVer(mountDirectory, old(bin)), HighestSemVer()) == Ok(true) ==>
        var cleared := Cleared(mountDirectory, old(bin).GetOr([]), deletable);
        (cleared.1.Some? ==> r == Err(cleared.1.value) && bin == Some(cleared.0))
        && (cleared.1.None? && writeFails ==> r == Err(Checked) && bin == Some([]))
      ensures (Upgrade(CurrentSemVer(mountDirectory, old(bin)), HighestSemVer()) == Ok(true)
               && Cleared(mountDirectory, old(bin).GetOr([]), deletable).1.None? && !writeFails) ==>
        HighestObject().Ok? && HighestObject().value.Some?
        && (var fileName := KeyFileName(HighestObject().value.value.key).value;
            bin == Some([DirEntry(fileName, false)])
            && r == Ok(Some(BinDir(mountDirectory) + "/" + fileName))
            && CurrentSemVer(mountDirectory, bin) == HighestSemVer())
    {
      var current := CurrentSemVer(mountDirectory, bin);
      if current.Err? {
        return Err(current.error);
      }
      var highest := HighestAvailableSemVer();
      if highest.Err? {
        return Err(highest.error);
      }
      if highest.value.None? {
        return Ok(PathToCurrent(mountDirectory, bin));
      }
      var upgrade := current.value.None?;
      if !upgrade {
        var c := CompareSemVer(highest.value.value, current.value.value);
        if c.Err? {
          return Err(c.error);
        }
        upgrade := c.value > 0;
      }
      if upgrade {
        HighestSemVerOfObject();
        var failure := ReplaceWithHighest(deletable, writeFails);
        if failure.Some? {
          return Err(failure.value);
        }
      }
      return Ok(PathToCurrent(mountDirectory, bin));
    }

    /** The file written for the highest release reads back as the highest version. */
    lemma InstalledIsHighest()
      requires HighestObject().Ok? && HighestObject().value.Some?
      ensures KeyFileName(HighestObject().value.value.key).Some?
      ensures var fileName := KeyFileName(HighestObject().value.value.key).value;
        PathToCurrent(mountDirectory, Some([DirEntry(fileName, false)])) == Some(BinDir(mountDirectory) + "/" + fileName)
        && CurrentSemVer(mountDirectory, Some([DirEntry(fileName, false)])) == HighestSemVer()
    {
      HighestSemVerOfObject();
      var key := HighestObject().value.value.key;
      KeyVersionShape(key);
      var fileName := KeyFileName(key).value;
      var semVer := GetOptionalSemVersion(key).value.value;
      assert semVer == BeforeFirst(fileName, '-') && semVer != "";
      assert fileName[0] != '-';
      CurrentSemVerOfName(mountDirectory, [DirEntry(fileName, false)], 0);
    }
  }
}
