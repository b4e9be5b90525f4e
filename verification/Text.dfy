/** The string primitives the printers and parsers rest on: splitting and joining, and decimal numerals. */
module Text {
  import opened Prelude

  // ---------- strings.Split and strings.Join ----------

  /** Cut at the leftmost occurrences of the separator, without overlap. */
  function Split(s: string, sep: string): (r: seq<string>)
    requires sep != ""
    ensures |r| > 0
    decreases |s|
  {
    if |s| < |sep| then [s]
    else if sep <= s then [""] + Split(s[|sep|..], sep)
    else
      var r := Split(s[1..], sep);
      [[s[0]] + r[0]] + r[1..]
  }

  function Join(ss: seq<string>, sep: string): string {
    if ss == [] then ""
    else if |ss| == 1 then ss[0]
    else ss[0] + sep + Join(ss[1..], sep)
  }

  /** No character of `p` occurs in `sep`. */
  predicate Apart(p: string, sep: string) {
    forall c :: c in p ==> c !in sep
  }

  lemma {:induction false} SplitWhole(p: string, sep: string)
    requires sep != "" && Apart(p, sep)
    ensures Split(p, sep) == [p]
  {
    if |p| >= |sep| {
      assert p[0] in p && sep[0] in sep;
      assert !(sep <= p);
      SplitWhole(p[1..], sep);
      assert [p[0]] + p[1..] == p;
    }
  }

  lemma {:induction false} SplitPiece(p: string, sep: string, rest: string)
    requires sep != "" && Apart(p, sep)
    ensures Split(p + sep + rest, sep) == [p] + Split(rest, sep)
  {
    var s := p + sep + rest;
    if p == "" {
      assert s == sep + rest;
      assert sep <= s && s[|sep|..] == rest;
    } else {
      assert p[0] in p && s[0] == p[0];
      assert !(sep <= s);
      assert s[1..] == p[1..] + sep + rest;
      SplitPiece(p[1..], sep, rest);
      assert [p[0]] + p[1..] == p;
    }
  }

  /** Splitting undoes joining, for pieces that share no character with the separator. */
  lemma {:induction false} SplitJoin(ss: seq<string>, sep: string)
    requires sep != "" && ss != [] && forall k :: 0 <= k < |ss| ==> Apart(ss[k], sep)
    ensures Split(Join(ss, sep), sep) == ss
  {
    if |ss| == 1 {
      SplitWhole(ss[0], sep);
    } else {
      SplitPiece(ss[0], sep, Join(ss[1..], sep));
      SplitJoin(ss[1..], sep);
    }
  }

  lemma {:induction false} JoinSplit(s: string, sep: string)
    requires sep != ""
    ensures Join(Split(s, sep), sep) == s
    decreases |s|
  {
    if |s| < |sep| {
    } else if sep <= s {
      JoinSplit(s[|sep|..], sep);
      JoinEmpty(Split(s[|sep|..], sep), sep);
      assert s == sep + s[|sep|..];
    } else {
      JoinSplit(s[1..], sep);
      JoinLonger(s[0], Split(s[1..], sep), sep);
    }
  }

  lemma {:induction false} JoinEmpty(r: seq<string>, sep: string)
    requires r != []
    ensures Join([""] + r, sep) == sep + Join(r, sep)
  {
    assert ([""] + r)[1..] == r;
    assert "" + sep + Join(r, sep) == sep + Join(r, sep);
  }

  lemma {:induction false} JoinLonger(c: char, r: seq<string>, sep: string)
    requires r != []
    ensures Join([[c] + r[0]] + r[1..], sep) == [c] + Join(r, sep)
  {
    assert ([[c] + r[0]] + r[1..])[1..] == r[1..];
    if |r| == 1 {
    } else {
      assert ([c] + r[0]) + sep + Join(r[1..], sep) == [c] + (r[0] + sep + Join(r[1..], sep));
    }
  }

  predicate OccursAt(s: string, sep: string, j: int) {
    0 <= j && j + |sep| <= |s| && s[j..j + |sep|] == sep
  }

  lemma {:induction false} OccursLater(s: string, sep: string, j: int)
    requires s != "" && j > 0
    ensures OccursAt(s, sep, j) == OccursAt(s[1..], sep, j - 1)
  {
    if j + |sep| <= |s| {
      assert s[j..j + |sep|] == s[1..][j - 1..j - 1 + |sep|];
    }
  }

  /** `r` begins with the piece before the first occurrence, and the rest is split. */
  ghost predicate IsCut(s: string, sep: string, r: seq<string>)
    requires sep != "" && r != []
  {
    && r[0] <= s && (forall j :: 0 <= j < |r[0]| ==> !OccursAt(s, sep, j))
    && if |r| == 1 then r[0] == s && forall j :: !OccursAt(s, sep, j)
       else OccursAt(s, sep, |r[0]|) && r[1..] == Split(s[|r[0]| + |sep|..], sep)
  }

  lemma {:induction false} CutLater(s: string, sep: string, r: seq<string>)
    requires sep != "" && s != "" && !(sep <= s) && r != [] && IsCut(s[1..], sep, r)
    ensures IsCut(s, sep, [[s[0]] + r[0]] + r[1..])
  {
    assert !OccursAt(s, sep, 0) && [s[0]] + s[1..] == s;
    forall j | j > 0
      ensures OccursAt(s, sep, j) == OccursAt(s[1..], sep, j - 1)
    {
      OccursLater(s, sep, j);
    }
    if |r| > 1 {
      assert s[1..][|r[0]| + |sep|..] == s[1 + |r[0]| + |sep|..];
    }
  }

  /** The first piece ends where the separator occurs first, and the rest is split in the same way; without an
      occurrence there is one piece. */
  lemma {:induction false} SplitFirst(s: string, sep: string)
    requires sep != ""
    ensures IsCut(s, sep, Split(s, sep))
    decreases |s|
  {
    if |s| < |sep| {
    } else if sep <= s {
      assert OccursAt(s, sep, 0);
    } else {
      SplitFirst(s[1..], sep);
      CutLater(s, sep, Split(s[1..], sep));
    }
  }

  // ---------- strconv.Itoa and strconv.Atoi ----------

  const MAX_INT := 0x7fff_ffff_ffff_ffff
  const MIN_INT := -0x8000_0000_0000_0000

  predicate IsInt(n: int) {
    MIN_INT <= n <= MAX_INT
  }

  predicate IsDigit(c: char) {
    '0' <= c <= '9'
  }

  predicate AllDigits(s: string) {
    forall k :: 0 <= k < |s| ==> IsDigit(s[k])
  }

  /** Digits without a superfluous leading zero. */
  predicate IsNumeral(s: string) {
    s != "" && AllDigits(s) && (s[0] == '0' ==> |s| == 1)
  }

  function Digit(d: nat): char
    requires d < 10
  {
    '0' + (d as char)
  }

  function Numeral(n: nat): string {
    if n < 10 then [Digit(n)] else Numeral(n / 10) + [Digit(n % 10)]
  }

  function DigitValue(c: char): nat
    requires IsDigit(c)
  {
    (c - '0') as nat
  }

  function Value(s: string): nat
    requires AllDigits(s)
  {
    if s == "" then 0 else 10 * Value(s[..|s| - 1]) + DigitValue(s[|s| - 1])
  }

  function Itoa(n: int): string {
    if n < 0 then "-" + Numeral(-n) else Numeral(n)
  }

  /** An optional sign and at least one digit, in the range of an int. */
  function Atoi(s: string): Option<int> {
    var digits := if s != "" && (s[0] == '-' || s[0] == '+') then s[1..] else s;
    if digits == "" || !AllDigits(digits) then None
    else
      var v: int := Value(digits);
      var n := if s[0] == '-' then -v else v;
      if IsInt(n) then Some(n) else None
  }

  lemma {:induction false} NumeralSpec(n: nat)
    ensures IsNumeral(Numeral(n)) && Value(Numeral(n)) == n
    ensures n > 0 ==> Numeral(n)[0] != '0'
  {
    if n >= 10 {
      NumeralSpec(n / 10);
      assert Numeral(n)[..|Numeral(n)| - 1] == Numeral(n / 10);
    } else {
      assert Numeral(n)[..0] == "";
    }
  }

  lemma {:induction false} ItoaChars(n: int)
    ensures forall c :: c in Itoa(n) ==> IsDigit(c) || c == '-'
    ensures Itoa(n) != "" && IsDigit(Itoa(n)[|Itoa(n)| - 1])
  {
    var m := if n < 0 then -n else n;
    NumeralSpec(m);
    assert forall c :: c in Numeral(m) ==> IsDigit(c);
  }

  lemma {:induction false} AtoiUnsigned(s: string)
    requires IsNumeral(s) && Value(s) <= MAX_INT
    ensures Atoi(s) == Some(Value(s))
  {
    assert IsDigit(s[0]);
  }

  lemma {:induction false} AtoiSigned(s: string)
    requires IsNumeral(s) && Value(s) <= -MIN_INT
    ensures var v: int := Value(s); Atoi("-" + s) == Some(-v)
  {
    var t := "-" + s;
    assert t[0] == '-' && t[1..] == s;
  }

  /** Parsing undoes printing on every int. */
  lemma {:induction false} AtoiItoa(n: int)
    requires IsInt(n)
    ensures Atoi(Itoa(n)) == Some(n)
    ensures forall c :: c in Itoa(n) ==> IsDigit(c) || c == '-'
    ensures Itoa(n) != "" && IsDigit(Itoa(n)[|Itoa(n)| - 1])
  {
    if n < 0 {
      NumeralSpec(-n);
      AtoiSigned(Numeral(-n));
    } else {
      NumeralSpec(n);
      AtoiUnsigned(Numeral(n));
    }
    ItoaChars(n);
  }

  // ---------- Which strings are numbers ----------

  /** The numeral of `n` behind any number of zeros. */
  ghost predicate Padded(d: string, n: nat) {
    exists z: nat :: z <= |d| && (forall k :: 0 <= k < z ==> d[k] == '0') && d[z..] == Numeral(n)
  }

  lemma {:induction false} ValueZero(d: string)
    requires d != "" && AllDigits(d) && d[0] == '0'
    ensures Value(d) == Value(d[1..])
  {
    var n := |d| - 1;
    if n > 0 {
      ValueZero(d[..n]);
      assert d[1..][..n - 1] == d[..n][1..];
    }
  }

  lemma {:induction false} ValuePositive(d: string)
    requires IsNumeral(d) && d[0] != '0'
    ensures Value(d) > 0
  {
    var n := |d| - 1;
    if n > 0 {
      ValuePositive(d[..n]);
    }
  }

  /** A canonical numeral is the one printed for its value. */
  lemma {:induction false} NumeralOfValue(d: string)
    requires IsNumeral(d)
    ensures Numeral(Value(d)) == d
  {
    var n := |d| - 1;
    assert d == d[..n] + [d[n]];
    if n > 0 {
      NumeralOfValue(d[..n]);
      ValuePositive(d[..n]);
    }
  }

  lemma {:induction false} PaddedValue(d: string, z: nat, n: nat)
    requires z <= |d| && (forall k :: 0 <= k < z ==> d[k] == '0') && d[z..] == Numeral(n)
    ensures d != "" && AllDigits(d) && Value(d) == n
    decreases z
  {
    NumeralSpec(n);
    assert d == d[..z] + d[z..];
    if z > 0 {
      assert d[1..][z - 1..] == d[z..];
      PaddedValue(d[1..], z - 1, n);
      ValueZero(d);
    }
  }

  lemma {:induction false} ValuePadded(d: string) returns (z: nat)
    requires d != "" && AllDigits(d)
    ensures z <= |d| && (forall k :: 0 <= k < z ==> d[k] == '0') && d[z..] == Numeral(Value(d))
  {
    if d[0] == '0' && |d| > 1 {
      z := ValuePadded(d[1..]);
      z := z + 1;
      ValueZero(d);
      assert d[1..][z - 1..] == d[z..];
    } else {
      z := 0;
      NumeralOfValue(d);
      assert d[0..] == d;
    }
  }

  lemma {:induction false} PaddedIff(d: string, n: nat)
    ensures Padded(d, n) <==> d != "" && AllDigits(d) && Value(d) == n
  {
    if z: nat :| z <= |d| && (forall k :: 0 <= k < z ==> d[k] == '0') && d[z..] == Numeral(n) {
      PaddedValue(d, z, n);
    }
    if d != "" && AllDigits(d) && Value(d) == n {
      var z := ValuePadded(d);
    }
  }

  /** A numeral behind an optional sign and any number of zeros. */
  ghost predicate ReadsAs(s: string, n: int) {
    || (n >= 0 && (Padded(s, n) || (s != "" && s[0] == '+' && Padded(s[1..], n))))
    || (n <= 0 && s != "" && s[0] == '-' && Padded(s[1..], -n))
  }

  /** What the parser accepts, and as which number. */
  lemma {:induction false} AtoiIff(s: string, n: int)
    ensures Atoi(s) == Some(n) <==> IsInt(n) && ReadsAs(s, n)
  {
    if n >= 0 {
      PaddedIff(s, n);
    }
    if s != "" && n >= 0 {
      PaddedIff(s[1..], n);
    }
    if s != "" && n <= 0 {
      PaddedIff(s[1..], -n);
    }
    if s != "" && (s[0] == '-' || s[0] == '+') {
      assert !AllDigits(s);
    }
  }
}
