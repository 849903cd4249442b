/**
 The version resolver of `create_release.py`: read the latest tag, fall back to
 0.0.0 when it is missing or unreadable, apply a Semantic Versioning 2.0.0 bump
 (items 6 to 8) and write the next tag as `v<major>.<minor>.<patch>`.
 */
module Versions {
  import opened PyText

  datatype Version = Version(major: nat, minor: nat, patch: nat)

  /** The release type given on the command line. */
  datatype Bump = Major | Minor | Patch

  const Zero := Version(0, 0, 0)

  /** The precedence of releases: (major, minor, patch) compared lexicographically. */
  predicate Less(a: Version, b: Version) {
    || a.major < b.major
    || (a.major == b.major && a.minor < b.minor)
    || (a.major == b.major && a.minor == b.minor && a.patch < b.patch)
  }

  predicate LessEq(a: Version, b: Version) {
    a == b || Less(a, b)
  }

  /** The bump of the if/elif chain: the result is the smallest version above `v`
      that raises the requested component, so every lower component restarts at 0. */
  function Apply(v: Version, bump: Bump): (r: Version)
    ensures Less(v, r)
    ensures bump == Patch ==> forall w: Version :: Less(v, w) ==> LessEq(r, w)
    ensures bump == Minor ==>
      && r.major == v.major && r.minor > v.minor
      && forall w: Version :: w.major == v.major && w.minor > v.minor ==> LessEq(r, w)
    ensures bump == Major ==>
      && r.major > v.major
      && forall w: Version :: w.major > v.major ==> LessEq(r, w)
  {
    match bump
    case Major => Version(v.major + 1, 0, 0)
    case Minor => Version(v.major, v.minor + 1, 0)
    case Patch => Version(v.major, v.minor, v.patch + 1)
  }

  /** `f'v{major}.{minor}.{patch}'`. */
  function Format(v: Version): string {
    "v" + Str(v.major) + "." + Str(v.minor) + "." + Str(v.patch)
  }

  /** `map(int, text.lstrip('v').split('.'))` unpacked into three names; `None`
      stands for the ValueError raised by a wrong number of parts or a part that
      is not a numeral. */
  function ParseTag(text: string): Option<Version> {
    var parts := Split(LStrip(text, c => c == 'v'), '.');
    if |parts| != 3 then None
    else
      match (ParseNat(parts[0]), ParseNat(parts[1]), ParseNat(parts[2]))
      case (Some(major), Some(minor), Some(patch)) => Some(Version(major, minor, patch))
      case _ => None
  }

  /** The strings `Format` produces: one `v`, then three canonical numerals
      separated by dots. */
  predicate WellFormedTag(s: string) {
    && |s| > 0 && s[0] == 'v'
    && var parts := Split(s[1..], '.');
    && |parts| == 3
    && Canonical(parts[0]) && Canonical(parts[1]) && Canonical(parts[2])
  }

  /** The baseline before the bump (lines 52 to 56): `latest` is the output of
      `git describe`, or `None` when that command exited with a non-zero status. */
  function Baseline(latest: Option<string>): Version {
    match latest
    case None => Zero
    case Some(out) =>
      match ParseTag(Strip(out))
      case Some(v) => v
      case None => Zero
  }

  /** The tag `main` passes on to `create_release_tag`. */
  function NextTag(latest: Option<string>, bump: Bump): (tag: string)
    ensures WellFormedTag(tag)
    ensures ParseTag(tag) == Some(Apply(Baseline(latest), bump))
    ensures Less(Baseline(latest), ParseTag(tag).value)
  {
    var next := Apply(Baseline(latest), bump);
    FormatWellFormed(next);
    ParseFormat(next);
    Format(next)
  }

  lemma JoinThree(a: string, b: string, c: string, sep: char)
    ensures Join([a, b, c], sep) == a + [sep] + b + [sep] + c
  {
    assert [a, b, c][1..] == [b, c];
    assert [b, c][1..] == [c];
    assert Join([b, c], sep) == b + [sep] + c;
  }

  /** The dotted body of a formatted tag, as a list of three numerals. */
  lemma {:induction false} FormatBody(v: Version)
    ensures Format(v) == "v" + Join([Str(v.major), Str(v.minor), Str(v.patch)], '.')
    ensures Split(Format(v)[1..], '.') == [Str(v.major), Str(v.minor), Str(v.patch)]
  {
    var parts := [Str(v.major), Str(v.minor), Str(v.patch)];
    JoinThree(parts[0], parts[1], parts[2], '.');
    assert Format(v) == "v" + Join(parts, '.');
    assert Format(v)[1..] == Join(parts, '.');
    forall i | 0 <= i < 3 ensures '.' !in parts[i] {
      assert AllDigits(parts[i]) && !IsDigit('.');
    }
    SplitJoin(parts, '.');
  }

  /** Every formatted version has the shape `v<n>.<n>.<n>`. */
  lemma {:induction false} FormatWellFormed(v: Version)
    ensures WellFormedTag(Format(v))
  {
    FormatBody(v);
  }

  /** Parsing a formatted tag gives the version back. */
  lemma {:induction false} ParseFormat(v: Version)
    ensures ParseTag(Format(v)) == Some(v)
  {
    var s := Format(v);
    FormatBody(v);
    assert IsDigit(s[1]);
    DropOneV(s);
    ParseStr(v.major);
    ParseStr(v.minor);
    ParseStr(v.patch);
  }

  /** A single leading `v` in front of anything else is all `lstrip('v')` removes. */
  lemma DropOneV(s: string)
    requires |s| > 1 && s[0] == 'v' && s[1] != 'v'
    ensures LStrip(s, c => c == 'v') == s[1..]
  {
  }

  /** Formatting a parsed well-formed tag gives the text back, so `Format` and
      `ParseTag` are inverse bijections between versions and well-formed tags. */
  lemma {:induction false} FormatParse(s: string)
    requires WellFormedTag(s)
    ensures ParseTag(s).Some? && Format(ParseTag(s).value) == s
  {
    var body := s[1..];
    var parts := Split(body, '.');
    assert parts == [parts[0], parts[1], parts[2]];
    JoinThree(parts[0], parts[1], parts[2], '.');
    assert body == parts[0] + "." + parts[1] + "." + parts[2];
    assert s[1] == parts[0][0];
    DropOneV(s);
    var v := Version(DigitsValue(parts[0]), DigitsValue(parts[1]), DigitsValue(parts[2]));
    assert ParseTag(s) == Some(v);
    StrOfCanonical(parts[0]);
    StrOfCanonical(parts[1]);
    StrOfCanonical(parts[2]);
    calc {
      Format(v);
      "v" + parts[0] + "." + parts[1] + "." + parts[2];
      "v" + body;
      s;
    }
  }

  /** `RStrip` keeps a string whose last character is not whitespace, and
      removes any whitespace appended to it. */
  lemma {:induction false} RStripTrailing(t: string, ws: string)
    requires |t| > 0 && !IsSpace(t[|t| - 1])
    requires forall i :: 0 <= i < |ws| ==> IsSpace(ws[i])
    ensures RStrip(t + ws, IsSpace) == t
  {
    if |ws| > 0 {
      assert (t + ws)[..|t + ws| - 1] == t + ws[..|ws| - 1];
      RStripTrailing(t, ws[..|ws| - 1]);
    } else {
      assert t + ws == t;
    }
  }

  /** What `git describe` prints for a tag this helper created (the tag and a
      line break, say) leads back to exactly the version of that tag. */
  lemma {:induction false} BaselineOfFormatted(v: Version, ws: string)
    requires forall i :: 0 <= i < |ws| ==> IsSpace(ws[i])
    ensures Baseline(Some(Format(v) + ws)) == v
  {
    var s := Format(v);
    FormatBody(v);
    assert (s + ws)[0] == 'v';
    assert LStrip(s + ws, IsSpace) == s + ws;
    assert IsDigit(s[|s| - 1]);
    RStripTrailing(s, ws);
    ParseFormat(v);
  }

  /** The fallback: a failed `git describe`, or output that does not read as
      three numerals after the leading `v`s, both give the 0.0.0 baseline. */
  lemma FallbackToZero(latest: Option<string>, bump: Bump)
    requires latest == None || ParseTag(Strip(latest.value)) == None
    ensures Baseline(latest) == Zero
    ensures NextTag(latest, bump) == Format(Apply(Zero, bump))
  {
  }

  /** The bumps of 1.2.3 and 0.0.0. */
  lemma BumpExamples()
    ensures Apply(Version(1, 2, 3), Major) == Version(2, 0, 0)
    ensures Apply(Version(1, 2, 3), Minor) == Version(1, 3, 0)
    ensures Apply(Version(1, 2, 3), Patch) == Version(1, 2, 4)
    ensures Apply(Zero, Patch) == Version(0, 0, 1)
  {
  }

  /** `lstrip('v')` removes every leading `v`, not only the first. */
  lemma StripsEveryLeadingV()
    ensures ParseTag("vv1.2.3") == Some(Version(1, 2, 3))
  {
    var v := Version(1, 2, 3);
    assert Str(1) == "1" && Str(2) == "2" && Str(3) == "3";
    assert Format(v) == "v1.2.3";
    ParseFormat(v);
    var s := "vv1.2.3";
    assert s[1..] == "v1.2.3";
    assert LStrip(s, c => c == 'v') == LStrip("v1.2.3", c => c == 'v');
  }

  /** Too few parts: the unpacking into three names fails. */
  lemma TwoPartsRejected()
    ensures ParseTag("v1.2") == None
  {
  }

  /** Too many parts: the unpacking into three names fails. */
  lemma FourPartsRejected()
    ensures ParseTag("v1.2.3.4") == None
  {
  }

  /** A part that is not a numeral: `int()` fails. */
  lemma LetterRejected()
    ensures ParseTag("v1.x.3") == None
  {
    var s := "v1.x.3";
    assert s[1..] == "1.x.3";
    assert LStrip(s, c => c == 'v') == "1.x.3";
    JoinThree("1", "x", "3", '.');
    SplitJoin(["1", "x", "3"], '.');
    assert !IsDigit("x"[0]);
  }

  /** Empty output: one empty part. */
  lemma EmptyRejected()
    ensures ParseTag("") == None
  {
  }
}
