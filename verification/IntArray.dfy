/** Printing and parsing int arrays (util/arrayTools.go). */
module IntArray {
  import opened Prelude
  import opened Text

  // ---------- fmt.Sprint, strings.Fields, strings.Trim ----------

  function Numbers(a: seq<int>): seq<string> {
    if a == [] then [] else [Itoa(a[0])] + Numbers(a[1..])
  }

  /** How fmt prints an []int. */
  function Sprint(a: seq<int>): string {
    "[" + Join(Numbers(a), " ") + "]"
  }

  predicate IsSpace(c: char) {
    c in " \t\n\r" || c == '\U{0B}' || c == '\U{0C}' || c == '\U{85}' || c == '\U{A0}'
  }

  /** The maximal stretches without white space; `word` is the one being read. */
  function FieldsFrom(s: string, word: string): seq<string> {
    if s == "" then if word == "" then [] else [word]
    else if IsSpace(s[0]) then (if word == "" then [] else [word]) + FieldsFrom(s[1..], "")
    else FieldsFrom(s[1..], word + [s[0]])
  }

  function Fields(s: string): seq<string> {
    FieldsFrom(s, "")
  }

  predicate IsBracket(c: char) {
    c == '[' || c == ']'
  }

  function TrimLeft(s: string): string {
    if s != "" && IsBracket(s[0]) then TrimLeft(s[1..]) else s
  }

  function TrimRight(s: string): string {
    if s != "" && IsBracket(s[|s| - 1]) then TrimRight(s[..|s| - 1]) else s
  }

  function TrimBrackets(s: string): string {
    TrimRight(TrimLeft(s))
  }

  /** IntArray2String. */
  function IntArray2String(a: seq<int>, delim: string): string {
    TrimBrackets(Join(Fields(Sprint(a)), delim))
  }

  // ---------- What the printer prints ----------

  predicate IsWord(s: string) {
    s != "" && forall c :: c in s ==> !IsSpace(c)
  }

  lemma {:induction false} FieldsWord(w: string, rest: string, word: string)
    requires forall c :: c in w ==> !IsSpace(c)
    ensures FieldsFrom(w + rest, word) == FieldsFrom(rest, word + w)
    decreases |w|
  {
    if w == "" {
      assert w + rest == rest && word + w == word;
    } else {
      assert w[0] in w;
      assert (w + rest)[1..] == w[1..] + rest && (w + rest)[0] == w[0];
      FieldsWord(w[1..], rest, word + [w[0]]);
      assert word + [w[0]] + w[1..] == word + w;
    }
  }

  /** Words joined by single spaces come apart again. */
  lemma {:induction false} FieldsJoin(ws: seq<string>)
    requires forall k :: 0 <= k < |ws| ==> IsWord(ws[k])
    ensures Fields(Join(ws, " ")) == ws
  {
    if |ws| == 1 {
      FieldsWord(ws[0], "", "");
      assert ws[0] + "" == ws[0] && "" + ws[0] == ws[0];
    } else if |ws| > 1 {
      var rest := " " + Join(ws[1..], " ");
      assert Join(ws, " ") == ws[0] + rest;
      FieldsWord(ws[0], rest, "");
      assert "" + ws[0] == ws[0] && rest[1..] == Join(ws[1..], " ");
      FieldsJoin(ws[1..]);
    }
  }

  /** The words of a printed array carry the brackets on the outside. */
  function Bracketed(ws: seq<string>): seq<string>
    requires ws != []
  {
    if |ws| == 1 then ["[" + ws[0] + "]"]
    else ["[" + ws[0]] + Closed(ws[1..])
  }

  function Closed(ws: seq<string>): seq<string>
    requires ws != []
  {
    if |ws| == 1 then [ws[0] + "]"] else [ws[0]] + Closed(ws[1..])
  }

  lemma {:induction false} JoinClosed(ws: seq<string>, sep: string)
    requires ws != []
    ensures Join(Closed(ws), sep) == Join(ws, sep) + "]" && |Closed(ws)| == |ws|
  {
    if |ws| > 1 {
      JoinClosed(ws[1..], sep);
      assert Closed(ws)[1..] == Closed(ws[1..]);
    }
  }

  lemma {:induction false} JoinBracketed(ws: seq<string>, sep: string)
    requires ws != []
    ensures Join(Bracketed(ws), sep) == "[" + Join(ws, sep) + "]"
  {
    if |ws| > 1 {
      JoinClosed(ws[1..], sep);
      assert Bracketed(ws)[1..] == Closed(ws[1..]);
    }
  }

  lemma {:induction false} ClosedWords(ws: seq<string>)
    requires ws != [] && forall k :: 0 <= k < |ws| ==> IsWord(ws[k])
    ensures forall k :: 0 <= k < |Closed(ws)| ==> IsWord(Closed(ws)[k])
  {
    if |ws| > 1 {
      ClosedWords(ws[1..]);
    }
  }

  lemma {:induction false} ItoaIsWord(n: int)
    requires IsInt(n)
    ensures IsWord(Itoa(n))
  {
    AtoiItoa(n);
  }

  lemma {:induction false} NumbersSpec(a: seq<int>)
    requires forall k :: 0 <= k < |a| ==> IsInt(a[k])
    ensures |Numbers(a)| == |a| && forall k :: 0 <= k < |a| ==> Numbers(a)[k] == Itoa(a[k])
    ensures forall k :: 0 <= k < |a| ==> IsWord(Numbers(a)[k])
  {
    if a == [] {
    } else {
      var r := Numbers(a[1..]);
      ItoaIsWord(a[0]);
      NumbersSpec(a[1..]);
      assert Numbers(a) == [Itoa(a[0])] + r;
      forall k | 0 < k < |a|
        ensures Numbers(a)[k] == Itoa(a[k]) && IsWord(Numbers(a)[k])
      {
        assert Numbers(a)[k] == r[k - 1] && a[k] == a[1..][k - 1];
      }
    }
  }

  predicate Bare(s: string) {
    s != "" && !IsBracket(s[0]) && !IsBracket(s[|s| - 1])
  }

  lemma {:induction false} TrimBare(s: string)
    requires Bare(s)
    ensures TrimBrackets("[" + s + "]") == s
  {
    var t := s + "]";
    assert ("[" + s + "]")[1..] == t;
    assert t[0] == s[0] && TrimLeft(t) == t;
    assert TrimLeft("[" + s + "]") == t;
    assert t[..|t| - 1] == s && TrimRight(s) == s;
  }

  lemma {:induction false} JoinNumbersBare(a: seq<int>, sep: string)
    requires a != [] && forall k :: 0 <= k < |a| ==> IsInt(a[k])
    ensures Bare(Join(Numbers(a), sep))
  {
    AtoiItoa(a[0]);
    assert Itoa(a[0])[0] in Itoa(a[0]);
    if |a| > 1 {
      NumbersSpec(a);
      JoinNumbersBare(a[1..], sep);
    }
  }

  /** The detour over fmt prints the numbers joined by the delimiter, whatever the delimiter is. */
  lemma {:induction false} PrintsJoined(a: seq<int>, delim: string)
    requires forall k :: 0 <= k < |a| ==> IsInt(a[k])
    ensures IntArray2String(a, delim) == Join(Numbers(a), delim)
  {
    if a == [] {
      FieldsJoin(["[]"]);
      assert Sprint(a) == "[]" == Join(["[]"], " ");
      assert "[]"[1..] == "]" && "]"[1..] == "";
    } else {
      var ws := Numbers(a);
      NumbersSpec(a);
      JoinBracketed(ws, " ");
      JoinBracketed(ws, delim);
      if |ws| > 1 {
        ClosedWords(ws[1..]);
      }
      FieldsJoin(Bracketed(ws));
      JoinNumbersBare(a, delim);
      TrimBare(Join(ws, delim));
    }
  }

  // ---------- The parser ----------

  /** An element that does not parse is left at zero. */
  function ParseOne(s: string): int {
    match Atoi(s)
    case Some(n) => n
    case None => 0
  }

  /** The element for a piece: the number that it reads as, and zero if it reads as no int. */
  ghost predicate IsElement(piece: string, n: int) {
    (IsInt(n) && ReadsAs(piece, n)) || (n == 0 && forall i :: IsInt(i) ==> !ReadsAs(piece, i))
  }

  lemma {:induction false} ParseOneIs(piece: string, n: int)
    ensures n == ParseOne(piece) <==> IsElement(piece, n)
  {
    AtoiIff(piece, n);
    forall i | IsInt(i) && ReadsAs(piece, i)
      ensures Atoi(piece) == Some(i)
    {
      AtoiIff(piece, i);
    }
    if Atoi(piece).Some? {
      AtoiIff(piece, Atoi(piece).value);
    }
  }

  /** Joining the pieces gives the string back; without a separator each piece is one character. */
  lemma {:induction false} PiecesJoin(s: string, delim: string)
    ensures Join(Pieces(s, delim), delim) == s
    ensures delim == "" ==> forall k :: 0 <= k < |Pieces(s, delim)| ==> |Pieces(s, delim)[k]| == 1
  {
    if delim != "" {
      JoinSplit(s, delim);
    } else if s != "" {
      var r := Pieces(s, delim);
      PiecesJoin(s[1..], delim);
      assert r[1..] == Pieces(s[1..], delim);
      if |s| > 1 {
        assert Join(r, delim) == [s[0]] + "" + s[1..];
      }
    }
  }

  /** strings.Split, which cuts between all characters when there is no separator. */
  function Pieces(s: string, delim: string): seq<string> {
    if delim == "" then seq(|s|, i requires 0 <= i < |s| => [s[i]]) else Split(s, delim)
  }

  method String2IntArray(arr: string, delim: string) returns (r: seq<int>)
    ensures arr == "" ==> r == []
    ensures arr != "" ==> |r| == |Pieces(arr, delim)|
                          && forall k :: 0 <= k < |r| ==> r[k] == ParseOne(Pieces(arr, delim)[k])
    ensures arr != "" ==> |r| == |Pieces(arr, delim)|
                          && forall k :: 0 <= k < |r| ==> IsElement(Pieces(arr, delim)[k], r[k])
  {
    if arr == "" {
      return [];
    }
    var a := Pieces(arr, delim);
    var b := new int[|a|](_ => 0);
    for i := 0 to |a|
      invariant forall k :: 0 <= k < i ==> b[k] == ParseOne(a[k])
      invariant forall k :: i <= k < |a| ==> b[k] == 0
    {
      var val := Atoi(a[i]);
      if val.Some? {
        b[i] := val.value;
      }
    }
    r := b[..];
    forall k | 0 <= k < |r|
      ensures IsElement(a[k], r[k])
    {
      ParseOneIs(a[k], r[k]);
    }
  }

  predicate GoodDelimiter(delim: string) {
    delim != "" && forall c :: c in delim ==> !IsDigit(c) && c != '-'
  }

  lemma {:induction false} NumbersSplit(a: seq<int>, delim: string)
    requires a != [] && GoodDelimiter(delim) && forall k :: 0 <= k < |a| ==> IsInt(a[k])
    ensures IntArray2String(a, delim) != "" && Split(IntArray2String(a, delim), delim) == Numbers(a)
    ensures |Numbers(a)| == |a| && forall k :: 0 <= k < |a| ==> ParseOne(Numbers(a)[k]) == a[k]
  {
    PrintsJoined(a, delim);
    NumbersSpec(a);
    JoinNumbersBare(a, delim);
    forall k | 0 <= k < |a|
      ensures Apart(Numbers(a)[k], delim) && ParseOne(Numbers(a)[k]) == a[k]
    {
      AtoiItoa(a[k]);
    }
    SplitJoin(Numbers(a), delim);
  }

  /** The round trip, for every array and every nonempty delimiter without digits and minus signs. */
  method RoundTrip(a: seq<int>, delim: string) returns (r: seq<int>)
    requires GoodDelimiter(delim) && forall k :: 0 <= k < |a| ==> IsInt(a[k])
    ensures r == a
  {
    PrintsJoined(a, delim);
    r := String2IntArray(IntArray2String(a, delim), delim);
    if a != [] {
      NumbersSplit(a, delim);
      NumbersSpec(a);
    }
  }
}
