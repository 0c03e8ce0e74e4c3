/** Comparison of a desired engine version with an observed one (`pkg/util/engine_version.go`). */
module EngineVersions {
  import opened Wrappers
  import opened GoNumbers

  /** `strings.Split(s, sep)` for a one-character separator. */
  function Split(s: string, sep: char): (parts: seq<string>)
    ensures |parts| >= 1
  {
    if s == "" then [""]
    else
      var rest := Split(s[1..], sep);
      if s[0] == sep then [""] + rest else [[s[0]] + rest[0]] + rest[1..]
  }

  /** The major and minor numbers of a version; -1 stands for an absent or "x" minor. */
  function VersionNumbersFromString(version: string): (int, int) {
    var parts := Split(version, '.');
    (Atoi(parts[0]),
     if |parts| > 1 && parts[1] != "x" && parts[1] != "X" then Atoi(parts[1]) else -1)
  }

  /** Whether the observed version satisfies the desired one. The source reads the last
      character of the desired version, which must exist unless the two are equal. */
  predicate EngineVersionsMatch(desired: string, latest: string)
    requires desired != "" || latest == ""
  {
    desired == latest ||
    var (dMaj, dMin) := VersionNumbersFromString(desired);
    var (lMaj, lMin) := VersionNumbersFromString(latest);
    (dMaj > 5 || desired[|desired| - 1] == 'x') && dMaj == lMaj && (dMin < 0 || dMin == lMin)
  }

  // ------------------------------------------------ canonical versions

  /** `7`, `7.2` or `7.x`, `7.2.<patch>` or `7.x.<patch>`; a minor of `None` is written "x". */
  datatype Version =
    | MajorOnly(major: nat)
    | Minor(major: nat, minor: Option<nat>)
    | Patch(major: nat, minor: Option<nat>, patch: string)
  {
    predicate Fits() {
      major <= MAX_INT64 && (!MajorOnly? && minor.Some? ==> minor.value <= MAX_INT64)
    }

    /** The minor number to compare, if the version pins one. */
    function PinnedMinor(): Option<nat> {
      if MajorOnly? then None else minor
    }

    predicate EndsInX() {
      match this
      case MajorOnly(_) => false
      case Minor(_, m) => m == None
      case Patch(_, _, p) => p != "" && p[|p| - 1] == 'x'
    }

    function MinorText(): string
      requires !MajorOnly?
    {
      if minor.Some? then Decimal(minor.value) else "x"
    }

    function Text(): string {
      match this
      case MajorOnly(m) => Decimal(m)
      case Minor(m, _) => Decimal(m) + "." + MinorText()
      case Patch(m, _, p) => Decimal(m) + "." + (MinorText() + "." + p)
    }
  }

  lemma {:induction false} SplitNoSeparator(s: string, sep: char)
    requires sep !in s
    ensures Split(s, sep) == [s]
  {
    if s != "" {
      SplitNoSeparator(s[1..], sep);
      assert [s[0]] + s[1..] == s;
    }
  }

  lemma {:induction false} SplitAtSeparator(a: string, rest: string, sep: char)
    requires sep !in a
    ensures Split(a + [sep] + rest, sep) == [a] + Split(rest, sep)
  {
    var s := a + [sep] + rest;
    if a == "" {
      assert s[1..] == rest;
    } else {
      SplitAtSeparator(a[1..], rest, sep);
      assert s[1..] == a[1..] + [sep] + rest;
      assert [a[0]] + a[1..] == a;
    }
  }

  /** Decimal text has no dot, and parses back. */
  lemma DecimalPart(n: nat)
    ensures '.' !in Decimal(n) && Decimal(n) != "x" && Decimal(n) != "X"
    ensures n <= MAX_INT64 ==> Atoi(Decimal(n)) == n
    ensures Decimal(n)[|Decimal(n)| - 1] != 'x'
  {
    var d := Decimal(n);
    assert forall i :: 0 <= i < |d| ==> IsDigit(d[i]);
    assert IsDigit(d[0]);
    if n <= MAX_INT64 {
      ParseItoa(n);
      assert Itoa(n) == d;
    }
  }

  lemma ParsesMinorText(v: Version)
    requires v.Fits() && !v.MajorOnly?
    ensures '.' !in v.MinorText()
    ensures (if v.MinorText() != "x" && v.MinorText() != "X" then Atoi(v.MinorText()) else -1)
         == (if v.minor.Some? then v.minor.value else -1)
    ensures v.MinorText() != "" && (v.MinorText()[|v.MinorText()| - 1] == 'x' <==> v.minor == None)
  {
    if v.minor.Some? { DecimalPart(v.minor.value); }
  }

  lemma PartsOfText(v: Version)
    requires v.Fits()
    ensures Split(v.Text(), '.') == [Decimal(v.major)] + match v
      case MajorOnly(_) => []
      case Minor(_, _) => [v.MinorText()]
      case Patch(_, _, p) => [v.MinorText()] + Split(p, '.')
  {
    var maj := Decimal(v.major);
    DecimalPart(v.major);
    match v {
      case MajorOnly(_) =>
        SplitNoSeparator(maj, '.');
      case Minor(_, _) =>
        ParsesMinorText(v);
        SplitAtSeparator(maj, v.MinorText(), '.');
        SplitNoSeparator(v.MinorText(), '.');
        assert v.Text() == maj + ['.'] + v.MinorText();
      case Patch(_, _, p) =>
        ParsesMinorText(v);
        var tail := v.MinorText() + ['.'] + p;
        SplitAtSeparator(maj, tail, '.');
        SplitAtSeparator(v.MinorText(), p, '.');
        assert v.Text() == maj + ['.'] + tail;
    }
  }

  /** The parser recovers the major and minor numbers of every canonical version. */
  lemma ParsesCanonical(v: Version)
    requires v.Fits()
    ensures VersionNumbersFromString(v.Text())
         == (v.major, if v.PinnedMinor().Some? then v.PinnedMinor().value else -1)
  {
    DecimalPart(v.major);
    PartsOfText(v);
    if !v.MajorOnly? {
      ParsesMinorText(v);
      assert Split(v.Text(), '.')[1] == v.MinorText();
    }
  }

  lemma LastCharacter(v: Version)
    requires v.Fits()
    ensures v.Text() != ""
    ensures v.Text()[|v.Text()| - 1] == 'x' <==> v.EndsInX()
  {
    DecimalPart(v.major);
    if !v.MajorOnly? {
      ParsesMinorText(v);
    }
  }

  /** Two canonical versions match exactly when they are the same text, or the desired one
      is of major 6 or later or ends in "x", the majors agree, and the desired minor is
      absent, "x" or equal. */
  lemma MatchMeaning(d: Version, l: Version)
    requires d.Fits() && l.Fits()
    ensures d.Text() != ""
    ensures EngineVersionsMatch(d.Text(), l.Text()) <==>
            || d.Text() == l.Text()
            || (&& (d.major > 5 || d.EndsInX())
                && d.major == l.major
                && (d.PinnedMinor() == None || d.PinnedMinor() == l.PinnedMinor()))
  {
    ParsesCanonical(d);
    ParsesCanonical(l);
    LastCharacter(d);
  }

  lemma SameTextSamePatch(maj: nat, min: nat, p: string, q: string)
    ensures Patch(maj, Some(min), p).Text() == Patch(maj, Some(min), q).Text() <==> p == q
  {
    var x, y := Patch(maj, Some(min), p).Text(), Patch(maj, Some(min), q).Text();
    var n := |Decimal(maj)| + |Decimal(min)| + 2;
    assert x[n..] == p;
    assert y[n..] == q;
  }

  /** From major 6 on the patch of either side never decides a match; up to major 5 a desired
      version that does not end in "x" is matched by nothing but itself. */
  lemma PatchMatters(maj: nat, min: nat, p: string, q: string)
    requires maj <= MAX_INT64 && min <= MAX_INT64
    ensures var d := Patch(maj, Some(min), p); var l := Patch(maj, Some(min), q);
            d.Text() != "" &&
            (EngineVersionsMatch(d.Text(), l.Text()) <==> maj > 5 || p == q || d.EndsInX())
  {
    var d, l := Patch(maj, Some(min), p), Patch(maj, Some(min), q);
    MatchMeaning(d, l);
    SameTextSamePatch(maj, min, p, q);
  }
}
