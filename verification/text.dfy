/** The string functions of the Go standard library that the core relies on: decimal
    conversion (store keys), trimming and splitting (broker topics, cron schedules). */
module Text {
  import opened Jobs

  // ---------- strconv ----------

  function Digit(d: nat): char
    requires d < 10
  {
    (('0' as int) + d) as char
  }

  predicate IsDigit(c: char) { '0' <= c <= '9' }

  function Digits(n: nat): string {
    if n < 10 then [Digit(n)] else Digits(n / 10) + [Digit(n % 10)]
  }

  function Itoa(n: int): string {
    if n < 0 then "-" + Digits(-n) else Digits(n)
  }

  function ParseDigits(s: string): Option<nat>
    decreases |s|
  {
    if s == [] || !IsDigit(s[|s| - 1]) then None
    else
      var d := s[|s| - 1] as int - '0' as int;
      if |s| == 1 then Some(d)
      else match ParseDigits(s[..|s| - 1])
           case None => None
           case Some(v) => Some(10 * v + d)
  }

  /** strconv.Atoi before its range check. */
  function ParseInt(s: string): Option<int> {
    if s == [] then None
    else if s[0] == '-' || s[0] == '+' then
      match ParseDigits(s[1..])
      case None => None
      case Some(v) => if s[0] == '-' then Some(-(v as int)) else Some(v)
    else match ParseDigits(s)
         case None => None
         case Some(v) => Some(v)
  }

  const MAX_INT64 := 0x7fff_ffff_ffff_ffff
  const MIN_INT64 := -0x8000_0000_0000_0000

  function Atoi(s: string): Option<int> {
    match ParseInt(s)
    case None => None
    case Some(v) => if MIN_INT64 <= v <= MAX_INT64 then Some(v) else None
  }

  lemma {:induction false} DigitsParse(n: nat)
    ensures |Digits(n)| > 0 && ParseDigits(Digits(n)) == Some(n)
    ensures forall i :: 0 <= i < |Digits(n)| ==> IsDigit(Digits(n)[i])
  {
    if n >= 10 {
      DigitsParse(n / 10);
      var s := Digits(n);
      assert s[..|s| - 1] == Digits(n / 10);
    }
  }

  /** Every integer survives the trip through its decimal form. */
  lemma ItoaRoundTrip(n: int)
    ensures ParseInt(Itoa(n)) == Some(n)
    ensures MIN_INT64 <= n <= MAX_INT64 ==> Atoi(Itoa(n)) == Some(n)
  {
    if n < 0 {
      DigitsParse(-n);
      assert Itoa(n)[1..] == Digits(-n);
    } else {
      DigitsParse(n);
      assert IsDigit(Digits(n)[0]);
    }
  }

  /** Beyond 64 bits the decimal form is refused. */
  lemma AtoiRefusesLarge(n: int)
    requires n < -9_223_372_036_854_775_808 || 9_223_372_036_854_775_807 < n
    ensures Atoi(Itoa(n)) == None
  {
    ItoaRoundTrip(n);
  }

  /** A leading plus sign is ignored, one sign at most. */
  lemma PlusIsIgnored(s: string)
    ensures ParseInt("+" + s) == if s != [] && (s[0] == '-' || s[0] == '+') then None else ParseInt(s)
  {
    assert ("+" + s)[1..] == s;
    ParsesIffDigits(s);
    if s != [] {
      assert s[0] == '-' || s[0] == '+' ==> !IsDigit(s[0]);
    }
  }

  lemma ItoaInjective(a: int, b: int)
    ensures Itoa(a) == Itoa(b) ==> a == b
  {
    ItoaRoundTrip(a);
    ItoaRoundTrip(b);
  }

  // ---------- strings ----------

  /** unicode.IsSpace */
  predicate IsSpace(c: char) {
    var n := c as int;
    9 <= n <= 13 || n == 0x20 || n == 0x85 || n == 0xA0 || n == 0x1680 || 0x2000 <= n <= 0x200a ||
    n == 0x2028 || n == 0x2029 || n == 0x202f || n == 0x205f || n == 0x3000
  }

  /** The white space of Unicode, by code point. */
  lemma SpacesAre(c: char)
    ensures IsSpace(c) <==>
            c as int in
            {9, 10, 11, 12, 13, 32, 133, 160, 5760, 8192, 8193, 8194, 8195, 8196, 8197, 8198, 8199, 8200, 8201, 8202,
             8232, 8233, 8239, 8287, 12288}
  {
  }

  function TrimLeft(s: string): string {
    if s != [] && IsSpace(s[0]) then TrimLeft(s[1..]) else s
  }

  function TrimRight(s: string): string {
    if s != [] && IsSpace(s[|s| - 1]) then TrimRight(s[..|s| - 1]) else s
  }

  function TrimSpace(s: string): string { TrimRight(TrimLeft(s)) }

  predicate HasPrefix(s: string, p: string) { p <= s }

  function TrimPrefix(s: string, p: string): string {
    if HasPrefix(s, p) then s[|p|..] else s
  }

  /** The length of the leading run of non-space characters. */
  function WordLength(s: string): (n: nat)
    ensures n <= |s|
    ensures n < |s| ==> IsSpace(s[n])
    ensures forall i :: 0 <= i < n ==> !IsSpace(s[i])
  {
    if s == [] || IsSpace(s[0]) then 0 else 1 + WordLength(s[1..])
  }

  /** strings.Fields */
  function Fields(s: string): seq<string>
    decreases |s|
  {
    if s == [] then []
    else if IsSpace(s[0]) then Fields(s[1..])
    else
      var n := WordLength(s);
      [s[..n]] + Fields(s[n..])
  }

  predicate IsWord(w: string) { w != [] && forall i :: 0 <= i < |w| ==> !IsSpace(w[i]) }

  function Join(ws: seq<string>): string {
    if ws == [] then "" else if |ws| == 1 then ws[0] else ws[0] + " " + Join(ws[1..])
  }

  lemma WordLengthOfWord(w: string, tail: string)
    requires IsWord(w) && (tail == [] || IsSpace(tail[0]))
    ensures WordLength(w + tail) == |w|
  {
    var s, n := w + tail, WordLength(w + tail);
    assert forall i :: 0 <= i < |w| ==> s[i] == w[i];
    assert tail != [] ==> s[|w|] == tail[0];
  }

  lemma FieldsOfWord(w: string, tail: string)
    requires IsWord(w) && (tail == [] || IsSpace(tail[0]))
    ensures Fields(w + tail) == [w] + Fields(tail)
  {
    WordLengthOfWord(w, tail);
    assert (w + tail)[0] == w[0];
    assert (w + tail)[..|w|] == w && (w + tail)[|w|..] == tail;
  }

  lemma FieldsOfPair(w: string, s: string)
    requires IsWord(w)
    ensures Fields(w + " " + s) == [w] + Fields(s)
  {
    var tail := " " + s;
    assert tail[0] == ' ' && tail[1..] == s;
    assert w + " " + s == w + tail;
    FieldsOfWord(w, tail);
  }

  /** Text that neither begins nor ends with space. */
  predicate Tight(s: string) { s != [] && !IsSpace(s[0]) && !IsSpace(s[|s| - 1]) }

  lemma TrimKeeps(s: string)
    requires Tight(s)
    ensures TrimSpace(s) == s
  {
  }

  lemma TightPair(w: string, s: string)
    requires IsWord(w) && Tight(s)
    ensures Tight(w + " " + s)
  {
    var t := w + " " + s;
    assert t[0] == w[0] && t[|t| - 1] == s[|s| - 1];
  }

  /** Fields undoes joining words with single spaces, and trimming does not touch the join. */
  lemma {:induction false} FieldsOfJoin(ws: seq<string>)
    requires ws != [] && forall i :: 0 <= i < |ws| ==> IsWord(ws[i])
    ensures Fields(Join(ws)) == ws && Tight(Join(ws))
    decreases |ws|
  {
    if |ws| == 1 {
      FieldsOfWord(ws[0], []);
      assert ws[0] + [] == ws[0] && ws == [ws[0]];
    } else {
      FieldsOfJoin(ws[1..]);
      TightPair(ws[0], Join(ws[1..]));
      FieldsOfPair(ws[0], Join(ws[1..]));
      assert ws == [ws[0]] + ws[1..];
    }
  }

  // ---------- what trimming and splitting mean for any text ----------

  predicate AllSpace(s: string) { forall i :: 0 <= i < |s| ==> IsSpace(s[i]) }

  lemma {:induction false} TrimLeftSplits(s: string) returns (a: string)
    ensures s == a + TrimLeft(s) && AllSpace(a)
    ensures TrimLeft(s) == [] || !IsSpace(TrimLeft(s)[0])
  {
    a := [];
    if s != [] && IsSpace(s[0]) {
      var rest := TrimLeftSplits(s[1..]);
      a := [s[0]] + rest;
      assert s == [s[0]] + s[1..];
    }
  }

  lemma {:induction false} TrimRightSplits(s: string) returns (b: string)
    ensures s == TrimRight(s) + b && AllSpace(b)
    ensures TrimRight(s) == [] || !IsSpace(TrimRight(s)[|TrimRight(s)| - 1])
    decreases |s|
  {
    b := [];
    if s != [] && IsSpace(s[|s| - 1]) {
      var rest := TrimRightSplits(s[..|s| - 1]);
      b := rest + [s[|s| - 1]];
      assert s == s[..|s| - 1] + [s[|s| - 1]];
    }
  }

  /** Any text is space, its trimmed form and space; the trimmed form is empty or neither
      begins nor ends with space. */
  lemma TrimSpaceSplits(s: string) returns (a: string, b: string)
    ensures s == a + TrimSpace(s) + b && AllSpace(a) && AllSpace(b)
    ensures TrimSpace(s) == [] || Tight(TrimSpace(s))
  {
    a := TrimLeftSplits(s);
    b := TrimRightSplits(TrimLeft(s));
    assert TrimSpace(s) != [] ==> TrimSpace(s)[0] == TrimLeft(s)[0];
    assert a + (TrimSpace(s) + b) == a + TrimSpace(s) + b;
  }

  /** Blank text is what trims to nothing. */
  lemma BlankIff(s: string)
    ensures TrimSpace(s) == [] <==> AllSpace(s)
  {
    var a, b := TrimSpaceSplits(s);
    if TrimSpace(s) != [] {
      assert s[|a|] == TrimSpace(s)[0];
    }
  }

  lemma {:induction false} FieldsSkipSpace(a: string, s: string)
    requires AllSpace(a)
    ensures Fields(a + s) == Fields(s)
  {
    if a == [] {
      assert a + s == s;
    } else {
      assert (a + s)[0] == a[0] && (a + s)[1..] == a[1..] + s;
      FieldsSkipSpace(a[1..], s);
    }
  }

  lemma {:induction false} FieldsDropSpace(s: string, b: string)
    requires AllSpace(b)
    ensures Fields(s + b) == Fields(s)
    decreases |s|
  {
    if s == [] {
      assert s + b == b + [];
      FieldsSkipSpace(b, []);
    } else if IsSpace(s[0]) {
      assert (s + b)[0] == s[0] && (s + b)[1..] == s[1..] + b;
      FieldsDropSpace(s[1..], b);
    } else {
      var n := WordLength(s);
      var w, rest := s[..n], s[n..];
      assert s == w + rest && IsWord(w);
      FieldsOfWord(w, rest);
      FieldsDropSpace(rest, b);
      assert s + b == w + (rest + b);
      FieldsOfWord(w, rest + b);
    }
  }

  /** Space around a text does not change its fields. */
  lemma FieldsOfTrimmed(s: string)
    ensures Fields(TrimSpace(s)) == Fields(s)
  {
    var a, b := TrimSpaceSplits(s);
    assert a + TrimSpace(s) + b == a + (TrimSpace(s) + b);
    FieldsSkipSpace(a, TrimSpace(s) + b);
    FieldsDropSpace(TrimSpace(s), b);
  }

  /** Fields are words. */
  lemma {:induction false} FieldsAreWords(s: string, i: nat)
    requires i < |Fields(s)|
    ensures IsWord(Fields(s)[i])
    decreases |s|
  {
    if IsSpace(s[0]) {
      FieldsAreWords(s[1..], i);
    } else if i > 0 {
      FieldsAreWords(s[WordLength(s)..], i - 1);
    }
  }

  lemma FirstField(s: string)
    requires Tight(s)
    ensures |Fields(s)| > 0 && WordLength(s) > 0 && Fields(s)[0] == s[..WordLength(s)]
  {
  }

  lemma {:induction false} ParsesIffDigits(s: string)
    ensures ParseDigits(s).Some? <==> s != [] && forall i :: 0 <= i < |s| ==> IsDigit(s[i])
    decreases |s|
  {
    if |s| > 1 {
      ParsesIffDigits(s[..|s| - 1]);
    }
  }
}
