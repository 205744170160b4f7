/**
 * The Python client's native-library manager: the version in a file name
 * (SEMVER_PATTERN), the platform's S3 prefix, the local and the highest
 * remote library, and the decision to download.
 */
module PyBinaryManager {
  import opened Wrappers
  import opened Text
  import opened SemVer
  import opened LocalFiles
  import PyUtils

  const BUCKET_NAME: string := "ikv-binaries"

  // ---------------------------------------------------------------- SEMVER_PATTERN

  /** `\w` on ASCII text. */
  predicate IsWordChar(c: char)
  {
    'a' <= c <= 'z' || 'A' <= c <= 'Z' || IsDigit(c) || c == '_'
  }

  /** `[\w\.]+`. */
  predicate IsDotted(s: string)
  {
    |s| > 0 && forall i :: 0 <= i < |s| ==> IsWordChar(s[i]) || s[i] == '.'
  }

  /** `(\d+)\.(\d+)\.(\d+)(?:-([\w\.]+))?`: a plain version, then optionally `-` and a pre-release. */
  predicate IsCore(s: string)
  {
    if '-' in s then
      var core := BeforeFirst(s, '-');
      IsPlain(core) && IsDotted(s[|core| + 1..])
    else IsPlain(s)
  }

  /** The pattern's body: the core, then optionally `+` and build metadata. */
  predicate IsSemverBody(s: string)
  {
    if '+' in s then
      var head := BeforeFirst(s, '+');
      IsCore(head) && IsDotted(s[|head| + 1..])
    else IsCore(s)
  }

  /**
   * `re.match(SEMVER_PATTERN, s)` succeeds: the whole text is the body, or
   * the body followed by one newline (where `$` also matches).
   */
  predicate MatchesSemverPattern(s: string)
  {
    IsSemverBody(s) || (|s| > 0 && s[|s| - 1] == '\n' && IsSemverBody(s[..|s| - 1]))
  }

  /** A plain text holds only digits and dots. */
  lemma PlainCharacters(s: string)
    requires IsPlain(s)
    ensures forall c :: c in s ==> IsDigit(c) || c == '.'
  {
    SplitJoin(s, '.');
    JoinCharacters(Split(s, '.'));
  }

  lemma {:induction false} JoinCharacters(parts: seq<string>)
    requires |parts| >= 1 && forall i :: 0 <= i < |parts| ==> IsDigits(parts[i])
    ensures forall c :: c in Join(parts, '.') ==> IsDigit(c) || c == '.'
    decreases |parts|
  {
    if |parts| > 1 {
      JoinCharacters(parts[1..]);
    }
  }

  lemma PlainMatches(s: string)
    requires IsPlain(s)
    ensures MatchesSemverPattern(s)
  {
    PlainCharacters(s);
  }

  // ---------------------------------------------------------------- file names

  /**
   * `parse_semver`: no version for an empty name; otherwise the text
   * before the first `-`, when it matches SEMVER_PATTERN. (Python's
   * `split` never returns no pieces, so that check cannot fail.)
   */
  function ParseSemver(filename: string): Option<string>
  {
    if |filename| == 0 then None
    else
      var parts := Split(filename, '-');
      if MatchesSemverPattern(parts[0]) then Some(parts[0]) else None
  }

  /** A name has a version exactly when it is non-empty and its text before the first `-` matches; that text is the version. */
  lemma ParseSemverMeaning(filename: string)
    ensures ParseSemver(filename).Some? <==> filename != "" && MatchesSemverPattern(BeforeFirst(filename, '-'))
    ensures ParseSemver(filename).Some? ==> ParseSemver(filename).value == BeforeFirst(filename, '-') && '-' !in ParseSemver(filename).value
  {
  }

  /** A released file, `<version>-<library>`, and a bare rendered version both give the version. */
  lemma ParseRendered(v: Version, library: string)
    ensures ParseSemver(Render(v) + "-" + library) == Some(Render(v))
    ensures ParseSemver(Render(v)) == Some(Render(v))
  {
    var version := Render(v);
    RenderCharacters(v);
    RenderIsPlain(v);
    PlainMatches(version);
    assert version + "-" + library == version + ['-'] + library;
    SplitCons(version, library, '-');
    SplitNoSep(version, '-');
  }

  /** A text that is empty or does not start with a digit is not the body of SEMVER_PATTERN. */
  lemma NotBodyOfFirst(s: string)
    requires s == "" || !IsDigit(s[0])
    ensures !IsSemverBody(s)
  {
    if '+' in s {
      var head := BeforeFirst(s, '+');
      assert head == "" || head[0] == s[0];
      NotCoreOfFirst(head);
    } else {
      NotCoreOfFirst(s);
    }
  }

  lemma NotCoreOfFirst(s: string)
    requires s == "" || !IsDigit(s[0])
    ensures !IsCore(s)
  {
    if '-' in s {
      var core := BeforeFirst(s, '-');
      assert core == "" || core[0] == s[0];
      NotPlainOfFirst(core);
    } else {
      NotPlainOfFirst(s);
    }
  }

  lemma NotPlainOfFirst(s: string)
    requires s == "" || !IsDigit(s[0])
    ensures !IsPlain(s)
  {
    var first := BeforeFirst(s, '.');
    assert Split(s, '.')[0] == first;
    assert first == "" || first[0] == s[0];
  }

  /** A name that does not start with a digit, such as `libikv.so`, has no version. */
  lemma ParseRejectsNonDigit(filename: string)
    requires filename != "" && !IsDigit(filename[0])
    ensures ParseSemver(filename).None?
  {
    var first := BeforeFirst(filename, '-');
    assert first == "" || first[0] == filename[0];
    NotBodyOfFirst(first);
    if |first| > 0 && first[|first| - 1] == '\n' {
      var body := first[..|first| - 1];
      assert body == "" || body[0] == filename[0];
      NotBodyOfFirst(body);
    }
  }

  /**
   * A version with build metadata, `X.Y.Z+<build>`, is accepted as a file's
   * version, yet `compare_semver` cannot read it: `int` of `Z+<build>`
   * raises ValueError.
   */
  lemma BuildMetadataUncomparable(v: Version, build: string, other: string)
    requires IsDotted(build) && '.' !in build
    ensures MatchesSemverPattern(Render(v) + "+" + build)
    ensures PyUtils.CompareSemver(Render(v) + "+" + build, other).Err?
  {
    BuildMetadataMatches(v, build);
    PatchWithBuildUnreadable(v, build);
  }

  lemma BuildMetadataMatches(v: Version, build: string)
    requires IsDotted(build)
    ensures IsSemverBody(Render(v) + "+" + build)
  {
    var version := Render(v) + "+" + build;
    RenderIsPlain(v);
    PlainCharacters(Render(v));
    assert version == Render(v) + ['+'] + build;
    BeforeFirstOfJoined(Render(v), build, '+');
    assert version[|Render(v)| + 1..] == build;
  }

  lemma PatchWithBuildUnreadable(v: Version, build: string)
    requires IsDotted(build) && '.' !in build
    ensures PyUtils.ParseSemver(Render(v) + "+" + build).Err?
  {
    PatchPieceOfBuild(v, build);
    var patch := NatToString(v.patch) + "+" + build;
    assert PyUtils.Strip(patch) == patch by {
      assert !PyUtils.IsSpace(patch[0]) && !PyUtils.IsSpace(patch[|patch| - 1]);
    }
    assert !PyUtils.IsGroupedDigits(PyUtils.SignlessPart(patch)) by {
      assert IsDigit(patch[0]);
      assert PyUtils.SignlessPart(patch) == patch;
      assert patch[|NatToString(v.patch)|] == '+';
    }
    assert PyUtils.PyInt(patch).Err?;
  }

  /** The text before the first separator of `a + [sep] + b`, with none in `a`, is `a`. */
  lemma BeforeFirstOfJoined(a: string, b: string, sep: char)
    requires sep !in a
    ensures BeforeFirst(a + [sep] + b, sep) == a
  {
    SplitCons(a, b, sep);
  }

  /** The dot-pieces of `X.Y.Z+<build>` are X, Y and `Z+<build>`. */
  lemma PatchPieceOfBuild(v: Version, build: string)
    requires '.' !in build
    ensures Split(Render(v) + "+" + build, '.')
      == [NatToString(v.major), NatToString(v.minor), NatToString(v.patch) + "+" + build]
  {
    var a, b, c := NatToString(v.major), NatToString(v.minor), NatToString(v.patch);
    var last := c + "+" + build;
    assert '.' !in a && '.' !in b && '.' !in last by {
      NoDotInDecimal(v.major);
      NoDotInDecimal(v.minor);
      NoDotInDecimal(v.patch);
    }
    assert Render(v) + "+" + build == a + ['.'] + (b + ['.'] + last);
    assert Split(b + ['.'] + last, '.') == [b, last] by {
      SplitCons(b, last, '.');
      SplitNoSep(last, '.');
    }
    SplitCons(a, b + ['.'] + last, '.');
  }

  // ---------------------------------------------------------------- platform

  /**
   * `platform_s3_prefix` on `platform.system()` and `platform.machine()`,
   * lower-cased: linux on x86_64/amd64 or arm64/aarch64, and darwin or mac
   * on arm64/aarch64; no prefix otherwise.
   */
  function PlatformS3Prefix(system: string, machine: string): (r: Option<string>)
    ensures r == Some("release/linux-x86_64") <==> Lower(system) == "linux" && (Lower(machine) == "x86_64" || Lower(machine) == "amd64")
    ensures r == Some("release/linux-aarch64") <==> Lower(system) == "linux" && (Lower(machine) == "arm64" || Lower(machine) == "aarch64")
    ensures r == Some("release/mac-aarch64") <==>
      (Lower(system) == "darwin" || Lower(system) == "mac") && (Lower(machine) == "arm64" || Lower(machine) == "aarch64")
    ensures r.Some? ==> r.value in {"release/linux-x86_64", "release/linux-aarch64", "release/mac-aarch64"}
  {
    var os, arch := Lower(system), Lower(machine);
    if os == "linux" then
      if arch == "x86_64" || arch == "amd64" then Some("release/linux-x86_64")
      else if arch == "arm64" || arch == "aarch64" then Some("release/linux-aarch64")
      else None
    else if os == "darwin" || os == "mac" then
      if arch == "arm64" || arch == "aarch64" then Some("release/mac-aarch64") else None
    else None
  }

  // ---------------------------------------------------------------- remote library

  /**
   * The names `_remote_dll_details` keeps: for each listed key that is
   * present, its last `/`-piece, when that has a version; in listing order.
   */
  function RemoteFiles(listing: seq<Option<string>>): (files: seq<string>)
    ensures forall i :: 0 <= i < |files| ==> ParseSemver(files[i]).Some? && '/' !in files[i]
    ensures |files| <= |listing|
  {
    if listing == [] then []
    else
      var rest := RemoteFiles(listing[1..]);
      match listing[0]
      case None => rest
      case Some(key) =>
        var file := LastPiece(key, '/');
        if ParseSemver(file).Some? then [file] + rest else rest
  }

  /** A key of the release layout is kept, as its file name. */
  lemma ReleaseKeyKept(platform: string, v: Version, library: string, rest: seq<Option<string>>)
    requires '/' !in platform && '/' !in library
    ensures RemoteFiles([Some("release/" + platform + "/" + Render(v) + "-" + library)] + rest)
      == [Render(v) + "-" + library] + RemoteFiles(rest)
  {
    var name := Render(v) + "-" + library;
    var listing := [Some("release/" + platform + "/" + Render(v) + "-" + library)] + rest;
    RenderCharacters(v);
    assert "release/" + platform + "/" + Render(v) + "-" + library == ("release/" + platform) + "/" + name;
    LastPieceOfPath("release/" + platform, name);
    ParseRendered(v, library);
    assert listing[1..] == rest;
  }

  /** The version of a kept name. */
  function FileVersion(file: string): string
  {
    match ParseSemver(file)
    case Some(semver) => semver
    case None => ""
  }

  /** `compare_semver` on the versions of names `i` and `h`. */
  function Compares(files: seq<string>, i: nat, h: nat): Result<int, PyUtils.PyError>
    requires i < |files| && h < |files|
  {
    PyUtils.CompareSemver(FileVersion(files[i]), FileVersion(files[h]))
  }

  /**
   * The rest of `_remote_dll_details`' loop from name `i` on, with the
   * highest so far at `h`: a name replaces it only when `compare_semver`
   * finds it strictly higher; a comparison that raises ends it.
   */
  function RemoteScan(files: seq<string>, i: nat, h: nat): (r: Result<nat, PyUtils.PyError>)
    requires i <= |files| && h < |files|
    ensures r.Ok? ==> r.value < |files|
    decreases |files| - i
  {
    if i == |files| then Ok(h)
    else
      var c := Compares(files, i, h);
      if c.Err? then Err(c.error)
      else if c.value > 0 then RemoteScan(files, i + 1, i)
      else RemoteScan(files, i + 1, h)
  }

  /** `(semver, prefix + "/" + file)` of the highest name, or `(None, None)` when there is no prefix or no name. */
  function RemoteDetails(prefix: Option<string>, listing: seq<Option<string>>): (r: Result<(Option<string>, Option<string>), PyUtils.PyError>)
    ensures r.Ok? ==> (r.value.0.None? <==> r.value.1.None?)
    ensures prefix.None? || RemoteFiles(listing) == [] ==> r == Ok((None, None))
    ensures r.Ok? && r.value.0.Some? ==>
      exists file :: file in RemoteFiles(listing) && r.value == (ParseSemver(file), Some(prefix.value + "/" + file))
  {
    var files := RemoteFiles(listing);
    if prefix.None? || |files| == 0 then Ok((None, None))
    else
      match RemoteScan(files, 0, 0)
      case Err(e) => Err(e)
      case Ok(h) =>
        assert files[h] in files;
        Ok((ParseSemver(files[h]), Some(prefix.value + "/" + files[h])))
  }

  /** The versions of names that are all plain `X.Y.Z`. */
  predicate AllPlain(files: seq<string>)
  {
    forall i :: 0 <= i < |files| ==> IsPlain(FileVersion(files[i]))
  }

  function Versions(files: seq<string>): (vs: seq<Version>)
    requires AllPlain(files)
    ensures |vs| == |files| && forall i :: 0 <= i < |files| ==> vs[i] == ValueOf(FileVersion(files[i]))
  {
    seq(|files|, i requires 0 <= i < |files| => ValueOf(FileVersion(files[i])))
  }

  /** No version among the first `n` is above `top`. */
  predicate AtMost(vs: seq<Version>, n: nat, top: Version)
    requires n <= |vs|
  {
    forall k :: 0 <= k < n ==> Precedence(vs[k], top) <= 0
  }

  /** Every version among the first `n` is below `top`. */
  predicate Below(vs: seq<Version>, n: nat, top: Version)
    requires n <= |vs|
  {
    forall k :: 0 <= k < n ==> Precedence(vs[k], top) < 0
  }

  lemma StepKeep(vs: seq<Version>, n: nat, top: Version)
    requires n < |vs| && AtMost(vs, n, top) && Precedence(vs[n], top) <= 0
    ensures AtMost(vs, n + 1, top)
  {
  }

  lemma StepReplace(vs: seq<Version>, n: nat, top: Version)
    requires n < |vs| && AtMost(vs, n, top) && Precedence(vs[n], top) > 0
    ensures AtMost(vs, n + 1, vs[n]) && Below(vs, n, vs[n])
  {
    forall k | 0 <= k < n
      ensures Precedence(vs[k], vs[n]) < 0
    {
      PrecedenceOrder(vs[k], top, vs[n]);
    }
  }

  /** On plain versions every comparison is by precedence and none raises. */
  lemma ComparesOfPlain(files: seq<string>)
    requires AllPlain(files)
    ensures forall j, k {:trigger Compares(files, j, k)} :: 0 <= j < |files| && 0 <= k < |files| ==>
      Compares(files, j, k) == Ok(Precedence(Versions(files)[j], Versions(files)[k]))
  {
    forall j, k | 0 <= j < |files| && 0 <= k < |files|
      ensures Compares(files, j, k) == Ok(Precedence(Versions(files)[j], Versions(files)[k]))
    {
      PyUtils.ComparePlain(FileVersion(files[j]), FileVersion(files[k]));
    }
  }

  /** The loop's answer on plain versions, computed on the versions alone. */
  function HighestFrom(vs: seq<Version>, i: nat, h: nat): (r: nat)
    requires i <= |vs| && h < |vs|
    ensures r < |vs|
    decreases |vs| - i
  {
    if i == |vs| then h else HighestFrom(vs, i + 1, if Precedence(vs[i], vs[h]) > 0 then i else h)
  }

  lemma RemoteScanTurn(files: seq<string>, vs: seq<Version>, i: nat, h: nat)
    requires |vs| == |files| && i < |files| && h < |files| && AnsweredBy(files, vs)
    ensures var next := if Precedence(vs[i], vs[h]) > 0 then i else h;
      RemoteScan(files, i, h) == RemoteScan(files, i + 1, next) && HighestFrom(vs, i, h) == HighestFrom(vs, i + 1, next)
  {
  }

  lemma RemoteScanEnd(files: seq<string>, vs: seq<Version>, h: nat)
    requires |vs| == |files| && h < |files|
    ensures RemoteScan(files, |files|, h) == Ok(h) && HighestFrom(vs, |vs|, h) == h
  {
  }

  /** A turn of the scan as the loop takes it: compare name `i` with the highest so far. */
  lemma RemoteScanTurnOf(files: seq<string>, i: nat, h: nat, c: Result<int, PyUtils.PyError>)
    requires i < |files| && h < |files|
    requires c == PyUtils.CompareSemver(FileVersion(files[i]), FileVersion(files[h]))
    ensures c.Err? ==> RemoteScan(files, i, h) == Err(c.error)
    ensures c.Ok? ==> RemoteScan(files, i, h) == RemoteScan(files, i + 1, if c.value > 0 then i else h)
  {
    assert Compares(files, i, h) == c;
  }

  /**
   * The loop of `_remote_dll_details` over the kept names: the version and
   * name of the first name with the highest version, or the exception a
   * comparison raises. Every kept name has a version, so `FileVersion` is
   * what `parse_semver` returns for it.
   */
  method PickHighest(files: seq<string>) returns (r: Result<(string, string), PyUtils.PyError>)
    requires files != []
    ensures RemoteScan(files, 0, 0).Err? ==> r == Err(RemoteScan(files, 0, 0).error)
    ensures RemoteScan(files, 0, 0).Ok? ==>
      r == Ok((FileVersion(files[RemoteScan(files, 0, 0).value]), files[RemoteScan(files, 0, 0).value]))
  {
    var highestSemver := FileVersion(files[0]);
    var highestFile := files[0];
    ghost var h := 0;
    for i := 0 to |files|
      invariant h < |files| && highestFile == files[h] && highestSemver == FileVersion(files[h])
      invariant RemoteScan(files, 0, 0) == RemoteScan(files, i, h)
    {
      var c := PyUtils.CompareSemver(FileVersion(files[i]), highestSemver);
      RemoteScanTurnOf(files, i, h, c);
      if c.Err? {
        return Err(c.error);
      }
      if c.value > 0 {
        highestSemver := FileVersion(files[i]);
        highestFile := files[i];
        h := i;
      }
    }
    return Ok((highestSemver, highestFile));
  }

  /** Every comparison of two names is answered by the precedence of their versions in `vs`. */
  ghost predicate AnsweredBy(files: seq<string>, vs: seq<Version>)
    requires |vs| == |files|
  {
    forall j, k {:trigger Compares(files, j, k)} :: 0 <= j < |files| && 0 <= k < |files| ==> Compares(files, j, k) == Ok(Precedence(vs[j], vs[k]))
  }

  /** With every comparison answered by precedence, the scan from name `i` on finds `HighestFrom`. */
  lemma {:induction false} RemoteScanOfPlain(files: seq<string>, vs: seq<Version>, i: nat, h: nat)
    requires |vs| == |files| && i <= |files| && h < |files| && AnsweredBy(files, vs)
    ensures RemoteScan(files, i, h) == Ok(HighestFrom(vs, i, h))
    decreases |files| - i
  {
    if i < |files| {
      RemoteScanTurn(files, vs, i, h);
      RemoteScanOfPlain(files, vs, i + 1, if Precedence(vs[i], vs[h]) > 0 then i else h);
    } else {
      RemoteScanEnd(files, vs, h);
    }
  }

  lemma {:induction false} HighestFromIsHighest(vs: seq<Version>, i: nat, h: nat)
    requires i <= |vs| && h < |vs| && AtMost(vs, i, vs[h]) && Below(vs, h, vs[h])
    ensures AtMost(vs, |vs|, vs[HighestFrom(vs, i, h)]) && Below(vs, HighestFrom(vs, i, h), vs[HighestFrom(vs, i, h)])
    decreases |vs| - i
  {
    if i < |vs| {
      if Precedence(vs[i], vs[h]) > 0 {
        StepReplace(vs, i, vs[h]);
        HighestFromIsHighest(vs, i + 1, i);
      } else {
        StepKeep(vs, i, vs[h]);
        HighestFromIsHighest(vs, i + 1, h);
      }
    }
  }

  /**
   * When every kept name's version is plain, no exception is raised and
   * the answer is the highest version, the first name to have it.
   */
  lemma RemoteDetailsIsHighest(prefix: string, listing: seq<Option<string>>)
    requires RemoteFiles(listing) != [] && AllPlain(RemoteFiles(listing))
    ensures RemoteDetails(Some(prefix), listing).Ok?
    ensures var files := RemoteFiles(listing);
      exists h :: 0 <= h < |files|
        && RemoteDetails(Some(prefix), listing).value == (Some(FileVersion(files[h])), Some(prefix + "/" + files[h]))
        && (forall k :: 0 <= k < |files| ==> Precedence(Versions(files)[k], Versions(files)[h]) <= 0)
        && (forall k :: 0 <= k < h ==> Precedence(Versions(files)[k], Versions(files)[h]) < 0)
  {
    var files := RemoteFiles(listing);
    var vs := Versions(files);
    ComparesOfPlain(files);
    RemoteScanOfPlain(files, vs, 0, 0);
    HighestFromIsHighest(vs, 0, 0);
    var h := HighestFrom(vs, 0, 0);
    assert RemoteDetails(Some(prefix), listing).value == (Some(FileVersion(files[h])), Some(prefix + "/" + files[h]));
    assert AtMost(Versions(files), |files|, Versions(files)[h]);
    assert Below(Versions(files), h, Versions(files)[h]);
  }

  // ---------------------------------------------------------------- local library

  /** Whether each listed name has a version. */
  function Versioned(names: seq<string>): (flags: seq<bool>)
    ensures |flags| == |names| && forall i :: 0 <= i < |names| ==> flags[i] == ParseSemver(names[i]).Some?
  {
    seq(|names|, i requires 0 <= i < |names| => ParseSemver(names[i]).Some?)
  }

  /** The first place whose flag is set. */
  function FirstSet(flags: seq<bool>): (r: Option<nat>)
    ensures r.Some? ==> r.value < |flags| && flags[r.value] && forall k :: 0 <= k < r.value ==> !flags[k]
    ensures r.None? ==> forall k :: 0 <= k < |flags| ==> !flags[k]
  {
    if flags == [] then None
    else if flags[0] then Some(0)
    else
      match FirstSet(flags[1..])
      case None => None
      case Some(k) => Some(k + 1)
  }

  function Names(entries: seq<DirEntry>): (names: seq<string>)
    ensures |names| == |entries| && forall i :: 0 <= i < |entries| ==> names[i] == entries[i].name
  {
    seq(|entries|, i requires 0 <= i < |entries| => entries[i].name)
  }

  /** `(semver, path)` of the first listed name with a version, or `(None, None)`. */
  function LocalDetails(mountDir: string, entries: seq<DirEntry>): (r: (Option<string>, Option<string>))
    ensures r.0.None? <==> r.1.None?
    ensures r.0.None? <==> forall k :: 0 <= k < |entries| ==> ParseSemver(entries[k].name).None?
    ensures r.0.Some? ==> exists k :: 0 <= k < |entries| && (forall j :: 0 <= j < k ==> ParseSemver(entries[j].name).None?)
                                     && r == (ParseSemver(entries[k].name), Some(BinDir(mountDir) + "/" + entries[k].name))
  {
    match FirstSet(Versioned(Names(entries)))
    case None => (None, None)
    case Some(k) => (ParseSemver(entries[k].name), Some(BinDir(mountDir) + "/" + entries[k].name))
  }

  /** The entries of a directory that are themselves directories, in order. */
  function Directories(entries: seq<DirEntry>): (r: seq<DirEntry>)
    ensures forall e :: e in r <==> e in entries && e.isDirectory
    ensures |r| <= |entries|
  {
    if entries == [] then []
    else (if entries[0].isDirectory then [entries[0]] else []) + Directories(entries[1..])
  }

  lemma {:induction false} DirectoriesAppend(a: seq<DirEntry>, b: seq<DirEntry>)
    ensures Directories(a + b) == Directories(a) + Directories(b)
    decreases |a|
  {
    if a != [] {
      assert (a + b)[0] == a[0] && (a + b)[1..] == a[1..] + b;
      DirectoriesAppend(a[1..], b);
      var head := if a[0].isDirectory then [a[0]] else [];
      assert Directories(a + b) == head + (Directories(a[1..]) + Directories(b));
    } else {
      assert a + b == b;
    }
  }

  /** A listing with `DirEntry` for every name, kept where they are. */
  lemma LocalDetailsAt(mountDir: string, entries: seq<DirEntry>, i: nat)
    requires i < |entries| && ParseSemver(entries[i].name).Some?
    requires forall k :: 0 <= k < i ==> ParseSemver(entries[k].name).None?
    ensures LocalDetails(mountDir, entries) == (ParseSemver(entries[i].name), Some(BinDir(mountDir) + "/" + entries[i].name))
  {
    var r := LocalDetails(mountDir, entries);
    assert r.0.Some?;
    var k :| 0 <= k < |entries| && (forall j :: 0 <= j < k ==> ParseSemver(entries[j].name).None?)
             && r == (ParseSemver(entries[k].name), Some(BinDir(mountDir) + "/" + entries[k].name));
    assert !(k < i);
    assert !(k > i);
  }

  lemma LocalDetailsNone(mountDir: string, entries: seq<DirEntry>)
    requires forall k :: 0 <= k < |entries| ==> ParseSemver(entries[k].name).None?
    ensures LocalDetails(mountDir, entries) == (None, None)
  {
  }

  /** One turn of `_delete_files_in_directory`: the entry at `kept` is entry `i`, removed unless a directory. */
  lemma DeleteStep(entries: seq<DirEntry>, i: nat, current: seq<DirEntry>, kept: nat)
    requires i < |entries| && current == Directories(entries[..i]) + entries[i..] && kept == |Directories(entries[..i])|
    ensures kept < |current| && current[kept] == entries[i]
    ensures entries[i].isDirectory ==>
      current == Directories(entries[..i + 1]) + entries[i + 1..] && kept + 1 == |Directories(entries[..i + 1])|
    ensures !entries[i].isDirectory ==>
      current[..kept] + current[kept + 1..] == Directories(entries[..i + 1]) + entries[i + 1..] && kept == |Directories(entries[..i + 1])|
  {
    assert entries[..i + 1] == entries[..i] + [entries[i]];
    DirectoriesAppend(entries[..i], [entries[i]]);
    assert [entries[i]][1..] == [];
    assert Directories([entries[i]]) == (if entries[i].isDirectory then [entries[i]] else []) + Directories([]);
    assert entries[i..] == [entries[i]] + entries[i + 1..];
    if entries[i].isDirectory {
      assert Directories(entries[..i + 1]) == Directories(entries[..i]) + [entries[i]];
    } else {
      assert Directories(entries[..i + 1]) == Directories(entries[..i]);
      assert current[..kept] == Directories(entries[..i]);
      assert current[kept + 1..] == entries[i + 1..];
    }
  }

  // ---------------------------------------------------------------- decision

  /**
   * What `get_path_to_dll` does once it has looked: keep the local library
   * (`Ok(None)`) or download the remote key (`Ok(Some(key))`). Nothing
   * remote keeps the local one; no local version downloads; otherwise it
   * downloads only when `compare_semver(remote, local)` is positive, and a
   * comparison that raises is passed on.
   */
  function Choice(local: (Option<string>, Option<string>), remote: (Option<string>, Option<string>)): (r: Result<Option<string>, PyUtils.PyError>)
    ensures remote.0.None? || remote.1.None? ==> r == Ok(None)
    ensures remote.0.Some? && remote.1.Some? && local.0.None? ==> r == Ok(remote.1)
    ensures r.Ok? && r.value.Some? ==> r.value == remote.1
  {
    if remote.0.None? || remote.1.None? then Ok(None)
    else if local.0.None? then Ok(remote.1)
    else
      match PyUtils.CompareSemver(remote.0.value, local.0.value)
      case Err(e) => Err(e)
      case Ok(c) => if c <= 0 then Ok(None) else Ok(remote.1)
  }

  /** On plain versions the library is downloaded exactly when the remote version is of higher precedence. */
  lemma ChoiceOnPlain(localSemver: string, localPath: Option<string>, remoteSemver: string, key: string)
    requires IsPlain(localSemver) && IsPlain(remoteSemver)
    ensures Choice((Some(localSemver), localPath), (Some(remoteSemver), Some(key)))
      == if Precedence(ValueOf(remoteSemver), ValueOf(localSemver)) > 0 then Ok(Some(key)) else Ok(None)
  {
    PyUtils.ComparePlain(remoteSemver, localSemver);
  }

  /**
   * After the remote library is downloaded into a directory whose
   * sub-directories carry no version, it is the local library, and a second
   * look at the same remote answer keeps it.
   */
  lemma DownloadedIsLocal(mountDir: string, entries: seq<DirEntry>, prefix: string, file: string)
    requires '/' !in file && ParseSemver(file).Some?
    requires forall k :: 0 <= k < |entries| && entries[k].isDirectory ==> ParseSemver(entries[k].name).None?
    ensures var installed := Directories(entries) + [DirEntry(LastPiece(prefix + "/" + file, '/'), false)];
      LocalDetails(mountDir, installed) == (ParseSemver(file), Some(BinDir(mountDir) + "/" + file))
    ensures var installed := Directories(entries) + [DirEntry(LastPiece(prefix + "/" + file, '/'), false)];
      PyUtils.CompareSemver(ParseSemver(file).value, ParseSemver(file).value).Ok? ==>
        Choice(LocalDetails(mountDir, installed), (ParseSemver(file), Some(prefix + "/" + file))) == Ok(None)
  {
    LastPieceOfPath(prefix, file);
    var dirs := Directories(entries);
    var installed := dirs + [DirEntry(file, false)];
    forall k | 0 <= k < |dirs|
      ensures ParseSemver(installed[k].name).None?
    {
      assert installed[k] == dirs[k] && dirs[k] in dirs;
    }
    LocalDetailsAt(mountDir, installed, |dirs|);
  }

  // ---------------------------------------------------------------- the manager

  /**
   * The native-library manager. `bin` is the listing of `<mount>/bin` (None
   * while it does not exist); `system` and `machine` are what `platform`
   * reports, and `listObjects` is the bucket's listing under a prefix, one
   * `Key` per object, None where an object or its key is None.
   */
  class NativeBinaryManager {
    const mountDir: string
    const system: string
    const machine: string
    const listObjects: string -> seq<Option<string>>
    var bin: Option<seq<DirEntry>>

    constructor(mountDir: string, system: string, machine: string, listObjects: string -> seq<Option<string>>, bin: Option<seq<DirEntry>>)
      ensures this.mountDir == mountDir && this.system == system && this.machine == machine
      ensures this.listObjects == listObjects && this.bin == bin
    {
      this.mountDir := mountDir;
      this.system := system;
      this.machine := machine;
      this.listObjects := listObjects;
      this.bin := bin;
    }

    /** `__init__`: the mount directory must be a non-blank `str`, or the error `is_valid_str_or_raise` raises. */
    static method New(mountDir: PyUtils.PyValue, system: string, machine: string, listObjects: string -> seq<Option<string>>, bin: Option<seq<DirEntry>>)
      returns (r: Result<NativeBinaryManager, PyUtils.PyError>)
      ensures PyUtils.IsValidStrOrRaise(mountDir).Err? ==> r == Err(PyUtils.IsValidStrOrRaise(mountDir).error)
      ensures PyUtils.IsValidStrOrRaise(mountDir).Ok? ==>
        r.Ok? && fresh(r.value) && r.value.mountDir == mountDir.text && r.value.bin == bin
        && r.value.system == system && r.value.machine == machine && r.value.listObjects == listObjects
    {
      var dir := PyUtils.IsValidStrOrRaise(mountDir);
      if dir.Err? {
        return Err(dir.error);
      }
      var manager := new NativeBinaryManager(dir.value, system, machine, listObjects, bin);
      return Ok(manager);
    }

    /** `_remote_dll_details` as a value: nothing without a platform prefix, else the highest name of the prefix's listing. */
    function RemoteDll(): (r: Result<(Option<string>, Option<string>), PyUtils.PyError>)
      ensures PlatformS3Prefix(system, machine).None? ==> r == Ok((None, None))
      ensures PlatformS3Prefix(system, machine).Some? ==>
        r == RemoteDetails(PlatformS3Prefix(system, machine), listObjects(PlatformS3Prefix(system, machine).value))
    {
      match PlatformS3Prefix(system, machine)
      case None => Ok((None, None))
      case Some(prefix) => RemoteDetails(Some(prefix), listObjects(prefix))
    }

    /** `_init_mount_dir`: `<mount>/bin` exists afterwards, with whatever it held. */
    method InitMountDir()
      modifies this
      ensures bin == Some(old(bin).GetOr([]))
    {
      if bin.None? {
        bin := Some([]);
      }
    }

    /** `_local_dll_details`: the first listed name with a version. */
    method LocalDllDetails() returns (r: (Option<string>, Option<string>))
      requires bin.Some?
      ensures r == LocalDetails(mountDir, bin.value)
    {
      var filenames := bin.value;
      if |filenames| == 0 {
        LocalDetailsNone(mountDir, filenames);
        return (None, None);
      }
      for i := 0 to |filenames|
        invariant forall k :: 0 <= k < i ==> ParseSemver(filenames[k].name).None?
      {
        var semver := ParseSemver(filenames[i].name);
        if semver.Some? {
          LocalDetailsAt(mountDir, filenames, i);
          return (semver, Some(BinDir(mountDir) + "/" + filenames[i].name));
        }
      }
      LocalDetailsNone(mountDir, filenames);
      return (None, None);
    }

    /** `_remote_dll_details`, with its loop keeping the first name of the highest version. */
    method RemoteDllDetails() returns (r: Result<(Option<string>, Option<string>), PyUtils.PyError>)
      ensures r == RemoteDll()
    {
      var prefix := PlatformS3Prefix(system, machine);
      if prefix.None? {
        return Ok((None, None));
      }
      var files := RemoteFiles(listObjects(prefix.value));
      if |files| == 0 {
        return Ok((None, None));
      }
      var highest := PickHighest(files);
      if highest.Err? {
        return Err(highest.error);
      }
      return Ok((Some(highest.value.0), Some(prefix.value + "/" + highest.value.1)));
    }

    /** `_delete_files_in_directory` on `<mount>/bin`: every entry that is not a directory is removed. */
    method DeleteFilesInDirectory()
      requires bin.Some?
      modifies this
      ensures bin == Some(Directories(old(bin).value))
    {
      var entries := bin.value;
      var kept := 0;
      assert entries[..0] == [] && entries[0..] == entries && Directories([]) == [];
      assert Directories(entries[..0]) + entries[0..] == entries;
      for i := 0 to |entries|
        invariant bin == Some(Directories(entries[..i]) + entries[i..])
        invariant kept == |Directories(entries[..i])|
      {
        var current := bin.value;
        DeleteStep(entries, i, current, kept);
        if !entries[i].isDirectory {
          bin := Some(current[..kept] + current[kept + 1..]);
        } else {
          kept := kept + 1;
        }
      }
      assert entries[..|entries|] == entries && entries[|entries|..] == [];
      assert Directories(entries) + [] == Directories(entries);
    }

    /**
     * `_download_remote_dll`: the files of `<mount>/bin` are deleted, then
     * the object is written there under its key's last `/`-piece.
     * `bodyMissing` stands for a response or body that is None, in which
     * case nothing is written and None returned.
     */
    method DownloadRemoteDll(objectKey: string, bodyMissing: bool) returns (r: Option<string>)
      requires bin.Some?
      modifies this
      ensures var fileName := LastPiece(objectKey, '/');
        bin == Some(if bodyMissing then Directories(old(bin).value) else Directories(old(bin).value) + [DirEntry(fileName, false)])
        && r == (if bodyMissing then None else Some(BinDir(mountDir) + "/" + fileName))
    {
      DeleteFilesInDirectory();
      var remoteDllFilename := LastPiece(objectKey, '/');
      var localDllPath := BinDir(mountDir) + "/" + remoteDllFilename;
      if bodyMissing {
        return None;
      }
      bin := Some(bin.value + [DirEntry(remoteDllFilename, false)]);
      return Some(localDllPath);
    }

    /**
     * `get_path_to_dll`: the local library's path, unless `Choice` picks the
     * remote one, which is then downloaded; an exception from a version
     * comparison is passed on.
     */
    method GetPathToDll(bodyMissing: bool) returns (r: Result<Option<string>, PyUtils.PyError>)
      modifies this
      ensures RemoteDll().Err? ==> r == Err(RemoteDll().error) && bin == Some(old(bin).GetOr([]))
      ensures RemoteDll().Ok? ==>
        var entries := old(bin).GetOr([]);
        var choice := Choice(LocalDetails(mountDir, entries), RemoteDll().value);
        (choice.Err? ==> r == Err(choice.error) && bin == Some(entries))
        && (choice == Ok(None) ==> r == Ok(LocalDetails(mountDir, entries).1) && bin == Some(entries))
        && (choice.Ok? && choice.value.Some? ==>
              var fileName := LastPiece(choice.value.value, '/');
              bin == Some(if bodyMissing then Directories(entries) else Directories(entries) + [DirEntry(fileName, false)])
              && r == Ok(if bodyMissing then None else Some(BinDir(mountDir) + "/" + fileName)))
    {
      InitMountDir();
      var local := LocalDllDetails();
      var remote := RemoteDllDetails();
      if remote.Err? {
        return Err(remote.error);
      }
      if remote.value.0.None? || remote.value.1.None? {
        return Ok(local.1);
      }
      if local.0.Some? {
        var c := PyUtils.CompareSemver(remote.value.0.value, local.0.value);
        if c.Err? {
          return Err(c.error);
        }
        if c.value <= 0 {
          return Ok(local.1);
        }
      }
      var path := DownloadRemoteDll(remote.value.1.value, bodyMissing);
      return Ok(path);
    }
  }
}
