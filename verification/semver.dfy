/**
 * Release versions `X.Y.Z` (section 2 of Semantic Versioning 2.0.0) and
 * their precedence (section 11: major, then minor, then patch, compared
 * numerically). The clients' version comparisons are proved against this.
 */
module SemVer {
  import opened Text

  datatype Version = Version(major: nat, minor: nat, patch: nat)

  /** Section 11 precedence: -1, 0 or 1 as `a` is lower than, equal to or higher than `b`. */
  function Precedence(a: Version, b: Version): (c: int)
    ensures c in {-1, 0, 1}
    ensures c == 0 <==> a == b
  {
    if a.major != b.major then (if a.major < b.major then -1 else 1)
    else if a.minor != b.minor then (if a.minor < b.minor then -1 else 1)
    else if a.patch != b.patch then (if a.patch < b.patch then -1 else 1)
    else 0
  }

  /** Precedence is a total order: antisymmetric and transitive. */
  lemma PrecedenceOrder(a: Version, b: Version, c: Version)
    ensures Precedence(b, a) == -Precedence(a, b)
    ensures Precedence(a, b) <= 0 && Precedence(b, c) <= 0 ==> Precedence(a, c) <= 0
    ensures Precedence(a, b) < 0 && Precedence(b, c) <= 0 ==> Precedence(a, c) < 0
    ensures Precedence(a, b) <= 0 && Precedence(b, c) < 0 ==> Precedence(a, c) < 0
  {
  }

  /** `X.Y.Z` in decimal. */
  function Render(v: Version): (s: string)
    ensures '.' in s
  {
    assert NatToString(v.major) + "." + NatToString(v.minor) + "." + NatToString(v.patch)
      == NatToString(v.major) + ['.'] + (NatToString(v.minor) + ['.'] + NatToString(v.patch));
    NatToString(v.major) + "." + NatToString(v.minor) + "." + NatToString(v.patch)
  }

  /** Matches `\d+\.\d+\.\d+`: three runs of ASCII digits separated by dots. */
  predicate IsPlain(s: string)
  {
    var parts := Split(s, '.');
    |parts| == 3 && IsDigits(parts[0]) && IsDigits(parts[1]) && IsDigits(parts[2])
  }

  /** The version a plain text denotes (leading zeros allowed). */
  function ValueOf(s: string): Version
    requires IsPlain(s)
  {
    var parts := Split(s, '.');
    Version(DigitsValue(parts[0]), DigitsValue(parts[1]), DigitsValue(parts[2]))
  }

  lemma NoDotInDecimal(n: nat)
    ensures '.' !in NatToString(n)
  {
    assert IsDigits(NatToString(n));
  }

  /** A rendered version holds only digits and dots: no `-` and no `/`. */
  lemma RenderCharacters(v: Version)
    ensures '-' !in Render(v) && '/' !in Render(v)
  {
    assert IsDigits(NatToString(v.major)) && IsDigits(NatToString(v.minor)) && IsDigits(NatToString(v.patch));
  }

  /** The pieces of a rendered version followed by `.` and more. */
  lemma SplitRenderThen(v: Version, rest: string)
    ensures Split(Render(v) + "." + rest, '.') == [NatToString(v.major), NatToString(v.minor), NatToString(v.patch)] + Split(rest, '.')
  {
    var a, b, c := NatToString(v.major), NatToString(v.minor), NatToString(v.patch);
    assert '.' !in a && '.' !in b && '.' !in c by {
      NoDotInDecimal(v.major);
      NoDotInDecimal(v.minor);
      NoDotInDecimal(v.patch);
    }
    var r1 := c + ['.'] + rest;
    var r2 := b + ['.'] + r1;
    calc {
      Split(Render(v) + "." + rest, '.');
      { assert Render(v) + "." + rest == a + ['.'] + r2; }
      Split(a + ['.'] + r2, '.');
      { SplitCons(a, r2, '.'); }
      [a] + Split(r2, '.');
      { SplitCons(b, r1, '.'); }
      [a] + ([b] + Split(r1, '.'));
      { SplitCons(c, rest, '.'); }
      [a] + ([b] + ([c] + Split(rest, '.')));
      [a, b, c] + Split(rest, '.');
    }
  }

  /** The pieces of a rendered version are its three numbers. */
  lemma SplitRender(v: Version)
    ensures Split(Render(v), '.') == [NatToString(v.major), NatToString(v.minor), NatToString(v.patch)]
  {
    var a, b, c := NatToString(v.major), NatToString(v.minor), NatToString(v.patch);
    assert '.' !in a && '.' !in b && '.' !in c by {
      NoDotInDecimal(v.major);
      NoDotInDecimal(v.minor);
      NoDotInDecimal(v.patch);
    }
    var r1 := b + ['.'] + c;
    assert Split(r1, '.') == [b, c] by {
      SplitNoSep(c, '.');
      SplitCons(b, c, '.');
    }
    assert Render(v) == a + ['.'] + r1;
    SplitCons(a, r1, '.');
  }

  /** A rendered version is plain and denotes itself. */
  lemma RenderIsPlain(v: Version)
    ensures IsPlain(Render(v)) && ValueOf(Render(v)) == v
  {
    SplitRender(v);
    NatToStringRoundTrip(v.major);
    NatToStringRoundTrip(v.minor);
    NatToStringRoundTrip(v.patch);
  }

  /** A plain text's pieces under Java's `split("\\.")` are the same three pieces. */
  lemma JavaSplitPlain(s: string)
    requires IsPlain(s)
    ensures JavaSplit(s, '.') == Split(s, '.')
  {
    var parts := Split(s, '.');
    if '.' !in s {
      SplitNoSep(s, '.');
      assert false;
    }
    assert parts[2] != "";
  }
}
