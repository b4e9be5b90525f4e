/** Version bumping (util/versionHelper.go) over semantic version strings with the leading "v" and the two
    short forms that golang.org/x/mod/semver accepts. */
module SemVer {
  import opened Prelude
  import opened Text

  // ---------- The parser ----------

  /** `short` is what the canonical form adds to a short version. */
  datatype Parsed = Parsed(major: string, minor: string, patch: string, short: string,
                           prerelease: string, build: string)

  function DigitCount(v: string): (n: nat)
    ensures n <= |v|
  {
    if v != "" && IsDigit(v[0]) then 1 + DigitCount(v[1..]) else 0
  }

  /** A numeral at the front, and what is left. */
  function ParseInt(v: string): Option<(string, string)> {
    var i := DigitCount(v);
    if i == 0 || (v[0] == '0' && i != 1) then None else Some((v[..i], v[i..]))
  }

  predicate IsIdentChar(c: char) {
    'A' <= c <= 'Z' || 'a' <= c <= 'z' || IsDigit(c) || c == '-'
  }

  predicate IsIdentifier(s: string) {
    s != "" && forall c :: c in s ==> IsIdentChar(c)
  }

  /** A numeric identifier with a leading zero. */
  predicate IsBadNum(s: string) {
    |s| > 1 && s[0] == '0' && AllDigits(s)
  }

  /** A hyphen and dot-separated identifiers, or nothing. */
  predicate IsPrerelease(s: string) {
    s == "" || (s[0] == '-' && forall k :: 0 <= k < |Split(s[1..], ".")| ==>
                  IsIdentifier(Split(s[1..], ".")[k]) && !IsBadNum(Split(s[1..], ".")[k]))
  }

  /** A plus sign and dot-separated identifiers, or nothing. */
  predicate IsBuild(s: string) {
    s == "" || (s[0] == '+' && forall k :: 0 <= k < |Split(s[1..], ".")| ==> IsIdentifier(Split(s[1..], ".")[k]))
  }

  /** The index of the first plus sign, or the length. */
  function PlusAt(s: string): (n: nat)
    ensures n <= |s|
  {
    if s == "" || s[0] == '+' then 0 else 1 + PlusAt(s[1..])
  }

  /** The pre-release and build parts at the end. */
  function ParseSuffix(v: string): Option<(string, string)> {
    var i := PlusAt(v);
    if IsPrerelease(v[..i]) && IsBuild(v[i..]) then Some((v[..i], v[i..])) else None
  }

  /** The rest of a version after its minor number. */
  function ParsePatch(major: string, minor: string, v: string): Option<Parsed> {
    if v == "" then Some(Parsed(major, minor, "0", ".0", "", ""))
    else if v[0] != '.' then None
    else
      match ParseInt(v[1..])
      case None => None
      case Some((patch, rest)) =>
        match ParseSuffix(rest)
        case None => None
        case Some((prerelease, build)) => Some(Parsed(major, minor, patch, "", prerelease, build))
  }

  /** The rest of a version after its major number. */
  function ParseMinor(major: string, v: string): Option<Parsed> {
    if v == "" then Some(Parsed(major, "0", "0", ".0.0", "", ""))
    else if v[0] != '.' then None
    else
      match ParseInt(v[1..])
      case None => None
      case Some((minor, rest)) => ParsePatch(major, minor, rest)
  }

  function Parse(v: string): Option<Parsed> {
    if v == "" || v[0] != 'v' then None
    else
      match ParseInt(v[1..])
      case None => None
      case Some((major, rest)) => ParseMinor(major, rest)
  }

  // ---------- The bump ----------

  function Canonical(v: string): string {
    match Parse(v)
    case None => ""
    case Some(p) => if |p.build| <= |v| then v[..|v| - |p.build|] + p.short else ""
  }

  function Build(v: string): string {
    match Parse(v)
    case None => ""
    case Some(p) => p.build
  }

  /** Go's increment wraps at the largest int. */
  function Increment(i: int): int {
    if i == MAX_INT then MIN_INT else i + 1
  }

  method Plus(v: string, n: nat) returns (r: Result<string>)
    requires Parse(v).Some? && n < 3
    ensures var objs := Split(Canonical(v)[1..], ".");
            && |objs| >= 3
            && (r.Ok? <==> Atoi(objs[n]).Some?)
            && (r.Ok? ==> r.value == "v" + Join(objs[n := Itoa(Increment(Atoi(objs[n]).value))], ".") + Build(v))
  {
    CanonicalParts(v);
    var suffix := Build(v);
    var obj := Canonical(v);
    var objs := Split(obj[1..], ".");
    var i := Atoi(objs[n]);
    if i.None? {
      return Err;
    }
    objs := objs[n := Itoa(Increment(i.value))];
    return Ok("v" + Join(objs, ".") + suffix);
  }

  // ---------- What valid versions look like ----------

  function PatchPart(p: Parsed): string {
    "." + (p.patch + p.prerelease)
  }

  function MinorPart(p: Parsed): string {
    "." + (p.minor + PatchPart(p))
  }

  /** The parts put together, without the build part. */
  function Core(p: Parsed): string {
    "v" + (p.major + MinorPart(p))
  }

  predicate ValidParts(p: Parsed) {
    IsNumeral(p.major) && IsNumeral(p.minor) && IsNumeral(p.patch) && IsPrerelease(p.prerelease) && IsBuild(p.build)
  }

  lemma {:induction false} DigitCountSpec(v: string)
    ensures AllDigits(v[..DigitCount(v)])
    ensures DigitCount(v) < |v| ==> !IsDigit(v[DigitCount(v)])
  {
    if v != "" && IsDigit(v[0]) {
      DigitCountSpec(v[1..]);
      var n := DigitCount(v[1..]);
      assert v[..n + 1] == [v[0]] + v[1..][..n];
    }
  }

  lemma {:induction false} DigitCountOf(s: string, rest: string)
    requires AllDigits(s) && (rest == "" || !IsDigit(rest[0]))
    ensures DigitCount(s + rest) == |s|
  {
    if s == "" {
      assert s + rest == rest;
    } else {
      assert (s + rest)[1..] == s[1..] + rest;
      DigitCountOf(s[1..], rest);
    }
  }

  lemma {:induction false} ParseIntSpec(v: string)
    requires ParseInt(v).Some?
    ensures IsNumeral(ParseInt(v).value.0) && v == ParseInt(v).value.0 + ParseInt(v).value.1
  {
    DigitCountSpec(v);
  }

  lemma {:induction false} ParseIntOf(s: string, rest: string)
    requires IsNumeral(s) && (rest == "" || !IsDigit(rest[0]))
    ensures ParseInt(s + rest) == Some((s, rest))
  {
    DigitCountOf(s, rest);
    assert (s + rest)[..|s|] == s && (s + rest)[|s|..] == rest;
  }

  lemma {:induction false} PlusAtOf(s: string, rest: string)
    requires '+' !in s && (rest == "" || rest[0] == '+')
    ensures PlusAt(s + rest) == |s|
  {
    if s == "" {
      assert s + rest == rest;
    } else {
      assert (s + rest)[1..] == s[1..] + rest;
      PlusAtOf(s[1..], rest);
    }
  }

  lemma {:induction false} CharsOfSplit(s: string, c: char)
    requires c in s && c != '.'
    ensures exists k :: 0 <= k < |Split(s, ".")| && c in Split(s, ".")[k]
    decreases |s|
  {
    if |s| >= 1 {
      var r := Split(s[1..], ".");
      if "." <= s {
        assert s[0] == '.';
        assert s == ["."[0]] + s[1..];
        CharsOfSplit(s[1..], c);
        var k :| 0 <= k < |r| && c in r[k];
        assert Split(s, ".")[k + 1] == r[k];
      } else if s[0] == c {
        assert c in Split(s, ".")[0];
      } else {
        assert s == [s[0]] + s[1..];
        CharsOfSplit(s[1..], c);
        var k :| 0 <= k < |r| && c in r[k];
        assert c in Split(s, ".")[k];
      }
    }
  }

  lemma {:induction false} PrereleaseHasNoPlus(s: string)
    requires IsPrerelease(s)
    ensures '+' !in s
  {
    if s != "" && '+' in s {
      assert s == [s[0]] + s[1..];
      CharsOfSplit(s[1..], '+');
    }
  }

  lemma {:induction false} ParseSuffixOf(pre: string, build: string)
    requires IsPrerelease(pre) && IsBuild(build)
    ensures ParseSuffix(pre + build) == Some((pre, build))
  {
    PrereleaseHasNoPlus(pre);
    PlusAtOf(pre, build);
    assert (pre + build)[..|pre|] == pre && (pre + build)[|pre|..] == build;
  }

  lemma {:induction false} Assoc(a: string, b: string, c: string)
    ensures (a + b) + c == a + (b + c)
  {
  }

  lemma {:induction false} ParsePatchOf(p: Parsed)
    requires ValidParts(p)
    ensures ParsePatch(p.major, p.minor, PatchPart(p) + p.build) == Some(p.(short := ""))
  {
    var v := PatchPart(p) + p.build;
    Assoc(p.patch, p.prerelease, p.build);
    assert v[1..] == p.patch + (p.prerelease + p.build);
    ParseIntOf(p.patch, p.prerelease + p.build);
    ParseSuffixOf(p.prerelease, p.build);
  }

  lemma {:induction false} ParseMinorOf(p: Parsed)
    requires ValidParts(p)
    ensures ParseMinor(p.major, MinorPart(p) + p.build) == Some(p.(short := ""))
  {
    var v := MinorPart(p) + p.build;
    Assoc(p.minor, PatchPart(p), p.build);
    assert v[1..] == p.minor + (PatchPart(p) + p.build);
    ParseIntOf(p.minor, PatchPart(p) + p.build);
    ParsePatchOf(p);
  }

  /** Parsing finds the parts that a version was put together from. */
  lemma {:induction false} ParseOf(p: Parsed)
    requires ValidParts(p)
    ensures Parse(Core(p) + p.build) == Some(p.(short := ""))
  {
    var v := Core(p) + p.build;
    Assoc(p.major, MinorPart(p), p.build);
    assert v[1..] == p.major + (MinorPart(p) + p.build);
    ParseIntOf(p.major, MinorPart(p) + p.build);
    ParseMinorOf(p);
  }

  /** `v` without its build part and with the short form's zeros added. */
  predicate Completes(v: string, p: Parsed, whole: string) {
    |p.build| <= |v| && v[..|v| - |p.build|] + p.short == whole
  }

  lemma {:induction false} CompletesPrefix(a: string, v: string, p: Parsed, whole: string)
    requires Completes(v, p, whole)
    ensures Completes(a + v, p, a + whole)
  {
    var n := |v| - |p.build|;
    assert (a + v)[..|a| + n] == a + v[..n];
  }

  lemma {:induction false} ParseSuffixSpec(v: string)
    requires ParseSuffix(v).Some?
    ensures var (prerelease, build) := ParseSuffix(v).value;
            IsPrerelease(prerelease) && IsBuild(build) && v == prerelease + build
  {
  }

  lemma {:induction false} SuffixCompletes(v: string, p: Parsed)
    requires v == p.prerelease + p.build && p.short == ""
    ensures Completes(v, p, p.prerelease)
  {
    assert v[..|v| - |p.build|] == p.prerelease;
    assert p.prerelease + "" == p.prerelease;
  }

  lemma {:induction false} ParsePatchUnfolds(major: string, minor: string, v: string)
    requires ParsePatch(major, minor, v).Some? && v != ""
    ensures v == "." + v[1..] && ParseInt(v[1..]).Some?
    ensures var (patch, rest) := ParseInt(v[1..]).value;
            && ParseSuffix(rest).Some?
            && var (prerelease, build) := ParseSuffix(rest).value;
               ParsePatch(major, minor, v) == Some(Parsed(major, minor, patch, "", prerelease, build))
  {
  }

  lemma {:induction false} PatchAndSuffix(v: string, rest: string, p: Parsed)
    requires v == p.patch + rest && rest == p.prerelease + p.build && p.short == ""
    ensures Completes("." + v, p, PatchPart(p))
  {
    SuffixCompletes(rest, p);
    CompletesPrefix(p.patch, rest, p, p.prerelease);
    CompletesPrefix(".", v, p, p.patch + p.prerelease);
  }

  lemma {:induction false} PatchCompletes(major: string, minor: string, v: string)
    requires ParsePatch(major, minor, v).Some? && IsNumeral(major) && IsNumeral(minor)
    ensures var p := ParsePatch(major, minor, v).value;
            ValidParts(p) && p.major == major && p.minor == minor && Completes(v, p, PatchPart(p))
  {
    if v == "" {
      assert PatchPart(Parsed(major, minor, "0", ".0", "", "")) == ".0";
    } else {
      ParsePatchUnfolds(major, minor, v);
      ParseIntSpec(v[1..]);
      var rest := ParseInt(v[1..]).value.1;
      ParseSuffixSpec(rest);
      PatchAndSuffix(v[1..], rest, ParsePatch(major, minor, v).value);
    }
  }

  lemma {:induction false} MinorCompletes(major: string, v: string)
    requires ParseMinor(major, v).Some? && IsNumeral(major)
    ensures var p := ParseMinor(major, v).value;
            ValidParts(p) && p.major == major && Completes(v, p, MinorPart(p))
  {
    var p := ParseMinor(major, v).value;
    if v != "" {
      ParseIntSpec(v[1..]);
      var (minor, rest) := ParseInt(v[1..]).value;
      PatchCompletes(major, minor, rest);
      CompletesPrefix(minor, rest, p, PatchPart(p));
      CompletesPrefix(".", v[1..], p, minor + PatchPart(p));
      assert v == "." + v[1..];
    }
  }

  lemma {:induction false} ParseUnfolds(v: string)
    requires Parse(v).Some?
    ensures v == "v" + v[1..] && ParseInt(v[1..]).Some?
    ensures var (major, rest) := ParseInt(v[1..]).value; ParseMinor(major, rest) == Parse(v)
  {
  }

  lemma {:induction false} CanonicalIs(v: string, whole: string)
    requires Parse(v).Some? && Completes(v, Parse(v).value, whole)
    ensures Canonical(v) == whole
  {
  }

  /** A valid version has valid parts, and its canonical form is these put together without the build part. */
  lemma {:induction false} ParsedParts(v: string)
    requires Parse(v).Some?
    ensures ValidParts(Parse(v).value) && Canonical(v) == Core(Parse(v).value)
  {
    var p := Parse(v).value;
    ParseUnfolds(v);
    ParseIntSpec(v[1..]);
    var (major, rest) := ParseInt(v[1..]).value;
    MinorCompletes(major, rest);
    CompletesPrefix(major, rest, p, MinorPart(p));
    CompletesPrefix("v", v[1..], p, major + MinorPart(p));
    CanonicalIs(v, Core(p));
  }

  lemma {:induction false} SplitNumeral(s: string, rest: string)
    requires IsNumeral(s)
    ensures Split(s + ("." + rest), ".") == [s] + Split(rest, ".")
  {
    SplitPiece(s, ".", rest);
    Assoc(s, ".", rest);
  }

  /** How the canonical form comes apart at the dots. */
  lemma {:induction false} CanonicalParts(v: string)
    requires Parse(v).Some?
    ensures var p := Parse(v).value;
            && Canonical(v) != ""
            && Split(Canonical(v)[1..], ".") == [p.major] + ([p.minor] + Split(p.patch + p.prerelease, "."))
  {
    ParsedParts(v);
    var p := Parse(v).value;
    assert Canonical(v)[1..] == p.major + MinorPart(p);
    SplitNumeral(p.major, p.minor + PatchPart(p));
    SplitNumeral(p.minor, p.patch + p.prerelease);
  }

  /** The first piece keeps the digits in front, and a hyphen after them. */
  lemma {:induction false} FirstPiece(s: string, rest: string)
    requires AllDigits(s) && (rest == "" || rest[0] == '-')
    ensures var r := Split(s + rest, ".")[0];
            s <= r && (rest != "" ==> |r| > |s| && r[|s|] == '-')
    ensures rest == "" ==> Split(s + rest, ".") == [s]
  {
    var t := s + rest;
    if s != "" {
      assert t[0] == s[0] && t[1..] == s[1..] + rest;
      FirstPiece(s[1..], rest);
      assert [s[0]] + s[1..] == s;
    }
  }

  /** A version with the major number alone. */
  lemma {:induction false} MajorOnly(major: string)
    requires IsNumeral(major)
    ensures Parse("v" + major) == Some(Parsed(major, "0", "0", ".0.0", "", ""))
  {
    assert ("v" + major)[1..] == major + "";
    ParseIntOf(major, "");
  }

  lemma {:induction false} MinorOnly(major: string, minor: string)
    requires IsNumeral(minor)
    ensures ParseMinor(major, "." + minor) == Some(Parsed(major, minor, "0", ".0", "", ""))
  {
    assert ("." + minor)[1..] == minor + "";
    ParseIntOf(minor, "");
  }

  /** A version without a patch number. */
  lemma {:induction false} MajorMinor(major: string, minor: string)
    requires IsNumeral(major) && IsNumeral(minor)
    ensures Parse("v" + (major + ("." + minor))) == Some(Parsed(major, minor, "0", ".0", "", ""))
  {
    assert ("v" + (major + ("." + minor)))[1..] == major + ("." + minor);
    ParseIntOf(major, "." + minor);
    MinorOnly(major, minor);
  }

  lemma {:induction false} CanonicalOf(v: string, p: Parsed)
    requires Parse(v) == Some(p) && p.build == ""
    ensures Canonical(v) == v + p.short
  {
    assert v[..|v| - |p.build|] == v;
  }

  /** The two short forms: the numbers that are left out are zero, and the canonical form says so. */
  lemma {:induction false} ShortForms(major: string, minor: string)
    requires IsNumeral(major) && IsNumeral(minor)
    ensures Parse("v" + major) == Some(Parsed(major, "0", "0", ".0.0", "", ""))
    ensures Parse("v" + (major + ("." + minor))) == Some(Parsed(major, minor, "0", ".0", "", ""))
    ensures Canonical("v" + major) == "v" + major + ".0.0"
    ensures Canonical("v" + (major + ("." + minor))) == "v" + (major + ("." + minor)) + ".0"
  {
    MajorOnly(major);
    MajorMinor(major, minor);
    CanonicalOf("v" + major, Parsed(major, "0", "0", ".0.0", "", ""));
    CanonicalOf("v" + (major + ("." + minor)), Parsed(major, minor, "0", ".0", "", ""));
  }

  // ---------- The bump, part by part ----------

  function Component(p: Parsed, n: nat): string
    requires n < 3
  {
    if n == 0 then p.major else if n == 1 then p.minor else p.patch
  }

  function WithComponent(p: Parsed, n: nat, s: string): Parsed
    requires n < 3
  {
    if n == 0 then p.(major := s) else if n == 1 then p.(minor := s) else p.(patch := s)
  }

  lemma {:induction false} AtoiNumeral(s: string)
    requires IsNumeral(s)
    ensures Atoi(s) == if Value(s) <= MAX_INT then Some(Value(s)) else None
  {
    assert IsDigit(s[0]);
  }

  lemma {:induction false} AtoiHyphenated(s: string, k: nat)
    requires 0 < k < |s| && IsDigit(s[0]) && s[k] == '-'
    ensures Atoi(s) == None
  {
    assert !AllDigits(s);
  }

  /** The piece with the patch number. */
  lemma {:induction false} PatchPiece(p: Parsed)
    requires ValidParts(p)
    ensures var piece := Split(p.patch + p.prerelease, ".")[0];
            if p.prerelease == "" then piece == p.patch else Atoi(piece) == None
  {
    FirstPiece(p.patch, p.prerelease);
    if p.prerelease != "" {
      AtoiHyphenated(Split(p.patch + p.prerelease, ".")[0], |p.patch|);
    }
  }

  /** What the bump reads at position `n`. */
  lemma {:induction false} PieceAt(v: string, n: nat)
    requires Parse(v).Some? && n < 3
    ensures var p, objs := Parse(v).value, Split(Canonical(v)[1..], ".");
            && |objs| >= 3
            && (n < 2 || p.prerelease == "" ==> objs[n] == Component(p, n))
            && (n == 2 && p.prerelease != "" ==> Atoi(objs[n]) == None)
  {
    CanonicalParts(v);
    ParsedParts(v);
    PatchPiece(Parse(v).value);
  }

  /** A bump of a valid version succeeds exactly when the component is an int and, for the patch number, there
      is no pre-release part. */
  lemma {:induction false} BumpSucceedsIff(v: string, n: nat)
    requires Parse(v).Some? && n < 3
    ensures var p, objs := Parse(v).value, Split(Canonical(v)[1..], ".");
            && |objs| >= 3 && IsNumeral(Component(p, n))
            && (Atoi(objs[n]).Some? <==> Value(Component(p, n)) <= MAX_INT && (n == 2 ==> p.prerelease == ""))
            && (Atoi(objs[n]).Some? ==> Atoi(objs[n]) == Some(Value(Component(p, n))))
  {
    PieceAt(v, n);
    ParsedParts(v);
    AtoiNumeral(Component(Parse(v).value, n));
  }

  lemma {:induction false} JoinTwo(a: string, b: string, rest: seq<string>)
    requires rest != []
    ensures Join([a] + ([b] + rest), ".") == a + ("." + (b + ("." + Join(rest, "."))))
  {
    assert ([b] + rest)[1..] == rest;
    assert ([a] + ([b] + rest))[1..] == [b] + rest;
    Assoc(b, ".", Join(rest, "."));
    Assoc(a, ".", Join([b] + rest, "."));
  }

  lemma {:induction false} RejoinedCore(p: Parsed, tail: seq<string>)
    requires tail != [] && Join(tail, ".") == p.patch + p.prerelease
    ensures "v" + Join([p.major] + ([p.minor] + tail), ".") == Core(p)
  {
    JoinTwo(p.major, p.minor, tail);
  }

  lemma {:induction false} ReplacedPiece(p: Parsed, tail: seq<string>, n: nat, s: string)
    requires n < 3 && tail != [] && (n == 2 ==> |tail| == 1)
    ensures ([p.major] + ([p.minor] + tail))[n := s]
         == [WithComponent(p, n, s).major] + ([WithComponent(p, n, s).minor] + if n == 2 then [s] else tail)
  {
  }

  /** Writing a numeral back at position `n` replaces that component and nothing else. */
  lemma {:induction false} RejoinedParts(v: string, n: nat, s: string)
    requires Parse(v).Some? && n < 3 && (n == 2 ==> Parse(v).value.prerelease == "")
    ensures var objs := Split(Canonical(v)[1..], ".");
            |objs| >= 3 && "v" + Join(objs[n := s], ".") == Core(WithComponent(Parse(v).value, n, s))
  {
    CanonicalParts(v);
    ParsedParts(v);
    var p := Parse(v).value;
    var tail := Split(p.patch + p.prerelease, ".");
    if n == 2 {
      FirstPiece(p.patch, "");
      ReplacedPiece(p, tail, n, s);
      assert s + "" == s;
      RejoinedCore(WithComponent(p, n, s), [s]);
    } else {
      JoinSplit(p.patch + p.prerelease, ".");
      ReplacedPiece(p, tail, n, s);
      RejoinedCore(WithComponent(p, n, s), tail);
    }
  }

  /** Lower by the numbers alone, which decide precedence before anything else does (item 11 of Semantic
      Versioning 2.0.0). */
  predicate LowerByNumbers(a: Parsed, b: Parsed)
    requires ValidParts(a) && ValidParts(b)
  {
    || Value(a.major) < Value(b.major)
    || (Value(a.major) == Value(b.major) && Value(a.minor) < Value(b.minor))
    || (Value(a.major) == Value(b.major) && Value(a.minor) == Value(b.minor) && Value(a.patch) < Value(b.patch))
  }

  /** `w` is a valid version with the parts of `p`, except that component `n` is one greater, and it has the higher
      precedence. */
  predicate IsBump(p: Parsed, n: nat, w: string)
    requires n < 3 && ValidParts(p)
  {
    && Parse(w).Some?
    && var q := Parse(w).value;
       && q == WithComponent(p, n, Component(q, n)).(short := "")
       && ValidParts(q) && Value(Component(q, n)) == Value(Component(p, n)) + 1
       && LowerByNumbers(p, q)
  }

  lemma {:induction false} IncrementedParts(p: Parsed, n: nat)
    requires n < 3 && ValidParts(p)
    ensures IsBump(p, n, Core(WithComponent(p, n, Numeral(Value(Component(p, n)) + 1))) + p.build)
  {
    NumeralSpec(Value(Component(p, n)) + 1);
    HigherParts(p, n, Numeral(Value(Component(p, n)) + 1));
  }

  lemma {:induction false} HigherParts(p: Parsed, n: nat, s: string)
    requires n < 3 && ValidParts(p) && IsNumeral(s) && Value(s) == Value(Component(p, n)) + 1
    ensures IsBump(p, n, Core(WithComponent(p, n, s)) + p.build)
  {
    var q := WithComponent(p, n, s);
    ParseOf(q);
    assert Component(q.(short := ""), n) == s;
  }

  lemma {:induction false} PlusBumps(v: string, n: nat, w: string)
    requires Parse(v).Some? && n < 3 && (n == 2 ==> Parse(v).value.prerelease == "")
    requires var objs := Split(Canonical(v)[1..], ".");
             && |objs| >= 3 && Atoi(objs[n]).Some?
             && w == "v" + Join(objs[n := Itoa(Increment(Atoi(objs[n]).value))], ".") + Build(v)
    ensures ValidParts(Parse(v).value)
    ensures Value(Component(Parse(v).value, n)) < MAX_INT ==> IsBump(Parse(v).value, n, w)
  {
    ParsedParts(v);
    BumpSucceedsIff(v, n);
    var p := Parse(v).value;
    var next := Value(Component(p, n)) + 1;
    if next <= MAX_INT {
      RejoinedParts(v, n, Numeral(next));
      IncrementedParts(p, n);
    }
  }

  /** The whole bump. An invalid version is replaced by v1.0.0; a valid one below the largest int comes back
      as a valid version with the one component increased by one, every other part kept, and a higher
      precedence; and the bump fails exactly when the component is no int or a patch number has a
      pre-release part behind it. */
  method Bump(v: string, n: nat) returns (r: Result<string>)
    requires n < 3
    ensures Parse(v).None? ==> r == Ok("v1.0.0")
    ensures Parse(v).Some? ==>
              var p := Parse(v).value;
              && ValidParts(p)
              && (r.Ok? <==> Value(Component(p, n)) <= MAX_INT && (n == 2 ==> p.prerelease == ""))
              && (r.Ok? && Value(Component(p, n)) < MAX_INT ==> IsBump(p, n, r.value))
  {
    if Parse(v).None? {
      return Ok("v1.0.0");
    }
    ParsedParts(v);
    BumpSucceedsIff(v, n);
    r := Plus(v, n);
    if r.Ok? {
      PlusBumps(v, n, r.value);
    }
  }
}
