/** The string operations the script parser is made of. */
module ScriptText {
  import opened Words

  datatype Option<+T> = None | Some(value: T)

  // ----- searching

  predicate OccursAt(s: string, pat: string, i: int) {
    0 <= i && i + |pat| <= |s| && s[i..i + |pat|] == pat
  }

  /** The first occurrence of pat at or after from, or -1. */
  function Find(s: string, pat: string, from: nat): (r: int)
    ensures r == -1 || (from <= r && r + |pat| <= |s|)
    decreases |s| - from
  {
    if from + |pat| > |s| then -1
    else if s[from..from + |pat|] == pat then from
    else Find(s, pat, from + 1)
  }

  lemma {:induction false} FindFirst(s: string, pat: string, from: nat)
    ensures var r := Find(s, pat, from);
            && (r != -1 ==> OccursAt(s, pat, r))
            && (forall i :: from <= i && (r == -1 || i < r) ==> !OccursAt(s, pat, i))
    decreases |s| - from
  {
    if from + |pat| > |s| || s[from..from + |pat|] == pat {
    } else {
      FindFirst(s, pat, from + 1);
    }
  }

  /** A first occurrence is where the search stops. */
  lemma FoundAt(s: string, pat: string, r: nat)
    requires OccursAt(s, pat, r) && forall i :: 0 <= i < r ==> !OccursAt(s, pat, i)
    ensures Find(s, pat, 0) == r
  {
    FindFirst(s, pat, 0);
  }

  lemma OccursFirst(s: string, pat: string, i: int)
    requires OccursAt(s, pat, i) && pat != ""
    ensures s[i] == pat[0]
  {
    assert s[i..i + |pat|][0] == s[i];
  }

  ghost predicate Contains(s: string, pat: string) {
    exists i :: OccursAt(s, pat, i)
  }

  predicate StartsWith(s: string, pat: string) { |pat| <= |s| && s[..|pat|] == pat }

  // ----- white space: the characters with the Unicode White_Space property

  predicate IsSpace(c: char) {
    var n := c as int;
    9 <= n <= 13 || n == 32 || n == 0x85 || n == 0xA0 || n == 0x1680 || 0x2000 <= n <= 0x200A
    || n == 0x2028 || n == 0x2029 || n == 0x202F || n == 0x205F || n == 0x3000
  }

  function TrimStart(s: string): (t: string)
    ensures |t| <= |s|
  {
    if s == "" || !IsSpace(s[0]) then s else TrimStart(s[1..])
  }

  /** Trimming leaves text as it is or makes it shorter. */
  lemma TrimStartIs(s: string)
    ensures if s == "" || !IsSpace(s[0]) then TrimStart(s) == s else |TrimStart(s)| < |s|
  {
  }

  function TrimEnd(s: string): string {
    if s == "" || !IsSpace(s[|s| - 1]) then s else TrimEnd(s[..|s| - 1])
  }

  function Trim(s: string): string { TrimEnd(TrimStart(s)) }

  // ----- lines

  /** A carriage return before the line feed belongs to the line ending. */
  function StripCr(l: string): (t: string)
    ensures |t| <= |l|
    ensures t == l <==> l == "" || l[|l| - 1] != '\r'
  {
    if l != "" && l[|l| - 1] == '\r' then l[..|l| - 1] else l
  }

  /** Where the first line of s ends. */
  function LineEnd(s: string): (i: nat)
    ensures i <= |s|
  {
    if s == "" || s[0] == '\n' then 0 else 1 + LineEnd(s[1..])
  }

  /** The end of the first line is the first line feed, or the end of the text. */
  lemma {:induction false} LineEndIs(s: string)
    ensures var i := LineEnd(s);
            && (i < |s| ==> s[i] == '\n')
            && forall j :: 0 <= j < i ==> s[j] != '\n'
  {
    if s == "" || s[0] == '\n' {
    } else {
      LineEndIs(s[1..]);
      forall j | 0 <= j < LineEnd(s) ensures s[j] != '\n' {
        if j > 0 { assert s[j] == s[1..][j - 1]; }
      }
    }
  }

  predicate NoNewline(s: string) { '\n' !in s }

  lemma LineEndAt(l: string, rest: string)
    requires NoNewline(l)
    ensures var s := l + "\n" + rest;
            LineEnd(s) == |l| && s[..|l|] == l && s[|l|] == '\n' && s[|l| + 1..] == rest
  {
    var s := l + "\n" + rest;
    LineEndIs(s);
    assert s[|l|] == '\n';
    forall j | 0 <= j < |l| ensures s[j] != '\n' { assert s[j] == l[j]; }
  }

  lemma LineEndAll(l: string)
    requires NoNewline(l)
    ensures LineEnd(l) == |l|
  {
    LineEndIs(l);
  }

  /** Lines end with a line feed, the last one possibly with the text. */
  function Lines(s: string): seq<string>
    decreases |s|
  {
    if s == "" then []
    else
      var i := LineEnd(s);
      if i == |s| then [s] else [StripCr(s[..i])] + Lines(s[i + 1..])
  }

  lemma FirstLine(l: string, rest: string)
    requires NoNewline(l)
    ensures Lines(l + "\n" + rest) == [StripCr(l)] + Lines(rest)
  {
    LineEndAt(l, rest);
  }

  lemma LastLine(l: string)
    requires NoNewline(l) && l != ""
    ensures Lines(l) == [l]
  {
    LineEndAll(l);
  }

  /** Every text is a line without line feed, or such a line, a line feed and more text. */
  lemma SplitLine(s: string) returns (l: string, more: bool, rest: string)
    ensures NoNewline(l)
    ensures more ==> s == l + "\n" + rest
    ensures !more ==> s == l
  {
    var i := LineEnd(s);
    LineEndIs(s);
    l, more := s[..i], i < |s|;
    rest := if more then s[i + 1..] else "";
  }

  predicate EndsLine(s: string) { s == "" || s[|s| - 1] == '\n' }

  /** Text that ends with a line feed splits into its first line and text that does too. */
  lemma SplitEnded(s: string) returns (l: string, rest: string)
    requires s != "" && EndsLine(s)
    ensures NoNewline(l) && s == l + "\n" + rest && EndsLine(rest)
  {
    var more;
    l, more, rest := SplitLine(s);
    assert s[|s| - 1] == '\n';
    if more && rest != "" { assert rest[|rest| - 1] == s[|s| - 1]; }
  }

  lemma ConcatStep(l: string, rest: string, b: string)
    requires NoNewline(l) && Lines(rest + b) == Lines(rest) + Lines(b)
    ensures Lines((l + "\n" + rest) + b) == Lines(l + "\n" + rest) + Lines(b)
  {
    SeqAssoc(l + "\n", rest, b);
    FirstLine(l, rest);
    FirstLine(l, rest + b);
    SeqAssoc([StripCr(l)], Lines(rest), Lines(b));
  }

  lemma SeqAssoc<T>(a: seq<T>, b: seq<T>, c: seq<T>)
    ensures (a + b) + c == a + (b + c)
  {
  }

  /** Text that ends with a line feed splits off cleanly. */
  lemma {:induction false} LinesConcat(a: string, b: string)
    requires EndsLine(a)
    ensures Lines(a + b) == Lines(a) + Lines(b)
    decreases |a|
  {
    if a == "" {
      assert a + b == b;
    } else {
      var l, rest := SplitEnded(a);
      LinesConcat(rest, b);
      ConcatStep(l, rest, b);
    }
  }

  // ----- numbers

  predicate IsDigit(c: char) { '0' <= c <= '9' }

  function DigitValue(c: char): nat
    requires IsDigit(c)
  {
    c as int - '0' as int
  }

  predicate AllDigits(s: string) { forall i :: 0 <= i < |s| ==> IsDigit(s[i]) }

  function Number(s: string): nat
    requires AllDigits(s)
  {
    if s == "" then 0 else 10 * Number(s[..|s| - 1]) + DigitValue(s[|s| - 1])
  }

  /** Parsing an unsigned 64-bit number: an optional plus sign, then digits only, below 2^64. */
  function ParseUsize(s: string): Option<nat> {
    var d := if |s| > 1 && s[0] == '+' then s[1..] else s;
    if d == "" || !AllDigits(d) || Number(d) >= TWO64 then None else Some(Number(d))
  }

  function Digit(n: nat): char
    requires n < 10
  {
    ('0' as int + n) as char
  }

  function Decimal(n: nat): (s: string)
    ensures s != "" && AllDigits(s)
  {
    if n < 10 then [Digit(n)] else Decimal(n / 10) + [Digit(n % 10)]
  }

  /** A printed number parses back. */
  lemma {:induction false} NumberOfDecimal(n: nat)
    ensures Number(Decimal(n)) == n
  {
    if n >= 10 {
      NumberOfDecimal(n / 10);
      assert Decimal(n)[..|Decimal(n)| - 1] == Decimal(n / 10);
    } else {
      assert Decimal(n)[..0] == "";
    }
  }

  lemma ParseDecimal(n: nat)
    requires n < TWO64
    ensures ParseUsize(Decimal(n)) == Some(n)
  {
    NumberOfDecimal(n);
    assert IsDigit(Decimal(n)[0]);
  }
}
