/** Which lines of a script the parser takes for the first line of a statement, said from the text alone. */
module LineNumbers {
  import opened ScriptText
  import opened ScriptLog

  /** The white space that trimming takes away. */
  predicate Blank(c: char) {
    c as int in {0x9, 0xA, 0xB, 0xC, 0xD, 0x20, 0x85, 0xA0, 0x1680,
                 0x2000, 0x2001, 0x2002, 0x2003, 0x2004, 0x2005, 0x2006, 0x2007, 0x2008, 0x2009, 0x200A,
                 0x2028, 0x2029, 0x202F, 0x205F, 0x3000}
  }

  predicate AllBlank(s: string) { forall i :: 0 <= i < |s| ==> Blank(s[i]) }

  lemma BlankIsSpace(c: char)
    ensures Blank(c) <==> IsSpace(c)
  {
  }

  // ----- trimming

  lemma {:induction false} TrimStartOff(w: string, t: string)
    requires AllBlank(w) && (t == "" || !Blank(t[0]))
    ensures TrimStart(w + t) == t
  {
    if w == "" {
      assert w + t == t;
      if t != "" { BlankIsSpace(t[0]); }
    } else {
      BlankIsSpace(w[0]);
      assert (w + t)[1..] == w[1..] + t;
      TrimStartOff(w[1..], t);
    }
  }

  lemma {:induction false} TrimEndOff(t: string, w: string)
    requires AllBlank(w) && (t == "" || !Blank(t[|t| - 1]))
    ensures TrimEnd(t + w) == t
    decreases |w|
  {
    if w == "" {
      assert t + w == t;
      if t != "" { BlankIsSpace(t[|t| - 1]); }
    } else {
      var n := |w| - 1;
      BlankIsSpace(w[n]);
      assert (t + w)[..|t + w| - 1] == t + w[..n];
      TrimEndOff(t, w[..n]);
    }
  }

  lemma {:induction false} TrimStartSplits(s: string) returns (w: string)
    ensures s == w + TrimStart(s) && AllBlank(w) && (TrimStart(s) == "" || !Blank(TrimStart(s)[0]))
  {
    if s == "" || !IsSpace(s[0]) {
      w := "";
      if s != "" { BlankIsSpace(s[0]); }
    } else {
      var v := TrimStartSplits(s[1..]);
      BlankIsSpace(s[0]);
      w := [s[0]] + v;
      assert s == [s[0]] + s[1..];
      BlankInFront(s[0], v, TrimStart(s[1..]));
    }
  }

  lemma BlankInFront(c: char, v: string, t: string)
    requires AllBlank(v) && Blank(c)
    ensures [c] + (v + t) == ([c] + v) + t && AllBlank([c] + v)
  {
  }

  lemma {:induction false} TrimEndSplits(s: string) returns (w: string)
    ensures s == TrimEnd(s) + w && AllBlank(w) && (TrimEnd(s) == "" || !Blank(TrimEnd(s)[|TrimEnd(s)| - 1]))
  {
    if s == "" || !IsSpace(s[|s| - 1]) {
      w := "";
      if s != "" { BlankIsSpace(s[|s| - 1]); }
    } else {
      var n := |s| - 1;
      var v := TrimEndSplits(s[..n]);
      BlankIsSpace(s[n]);
      w := v + [s[n]];
      assert s == s[..n] + [s[n]];
      BlankBehind(TrimEnd(s[..n]), v, s[n]);
    }
  }

  lemma BlankBehind(t: string, v: string, c: char)
    requires AllBlank(v) && Blank(c)
    ensures (t + v) + [c] == t + (v + [c]) && AllBlank(v + [c])
  {
  }

  /** What is left of a line without its leading white space. */
  lemma TrimStartIff(s: string, t: string)
    ensures TrimStart(s) == t <==> exists w :: s == w + t && AllBlank(w) && (t == "" || !Blank(t[0]))
  {
    var v := TrimStartSplits(s);
    if w :| s == w + t && AllBlank(w) && (t == "" || !Blank(t[0])) {
      TrimStartOff(w, t);
    }
  }

  // ----- decimal numbers

  function Power10(n: nat): nat { if n == 0 then 1 else 10 * Power10(n - 1) }

  predicate Digits(s: string) { forall i :: 0 <= i < |s| ==> s[i] in "0123456789" }

  lemma DigitIs(c: char)
    ensures c in "0123456789" <==> IsDigit(c)
    ensures IsDigit(c) ==> "0123456789"[DigitValue(c)] == c
  {
    var ds := "0123456789";
    if IsDigit(c) {
      assert ds[c as int - '0' as int] == c;
    }
  }

  /** The value of decimal digits, place by place. */
  function Value(s: string): nat
    requires Digits(s)
  {
    if s == "" then 0 else
    DigitIs(s[0]);
    DigitValue(s[0]) * Power10(|s| - 1) + Value(s[1..])
  }

  lemma DigitsAre(s: string)
    ensures Digits(s) <==> AllDigits(s)
  {
    forall i | 0 <= i < |s| ensures s[i] in "0123456789" <==> IsDigit(s[i]) {
      DigitIs(s[i]);
    }
  }

  lemma {:induction false} ValueLast(s: string, c: char)
    requires Digits(s) && IsDigit(c)
    ensures Digits(s + [c]) && Value(s + [c]) == 10 * Value(s) + DigitValue(c)
  {
    DigitIs(c);
    if s == "" {
      assert s + [c] == [c] && [c][1..] == "";
      assert Value([c]) == DigitValue(c) * Power10(0) + Value("");
    } else {
      ValueLast(s[1..], c);
      assert (s + [c])[1..] == s[1..] + [c] && (s + [c])[0] == s[0];
      DigitIs(s[0]);
      Place(DigitValue(s[0]), Power10(|s| - 1), Value(s[1..]), DigitValue(c));
    }
  }

  lemma Place(d: nat, p: nat, v: nat, e: nat)
    ensures d * (10 * p) + (10 * v + e) == 10 * (d * p + v) + e
  {
  }

  lemma {:induction false} NumberIs(s: string)
    requires AllDigits(s)
    ensures Digits(s) && Number(s) == Value(s)
  {
    DigitsAre(s);
    if s != "" {
      var n := |s| - 1;
      NumberIs(s[..n]);
      ValueLast(s[..n], s[n]);
      assert s == s[..n] + [s[n]];
    }
  }

  // ----- a number in the text

  /** The text is white space, perhaps a plus sign, digits of value n, and white space. */
  ghost predicate Parts(s: string, n: nat, front: string, plus: string, digits: string, back: string) {
    && s == front + (plus + digits) + back && AllBlank(front) && AllBlank(back)
    && (plus == "" || plus == "+")
    && digits != "" && Digits(digits) && Value(digits) == n && n < 0x1_0000_0000_0000_0000
  }

  ghost predicate Spelled(s: string, n: nat) {
    exists front, plus, digits, back :: Parts(s, n, front, plus, digits, back)
  }

  lemma DigitNotBlank(c: char)
    requires c in "0123456789" || c == '+'
    ensures !Blank(c)
  {
    DigitIs(c);
  }

  lemma CoreEdges(plus: string, digits: string)
    requires (plus == "" || plus == "+") && digits != "" && Digits(digits)
    ensures var core := plus + digits; !Blank(core[0]) && !Blank(core[|core| - 1])
  {
    DigitNotBlank(digits[0]);
    DigitNotBlank(digits[|digits| - 1]);
    DigitNotBlank('+');
  }

  lemma TrimParts(s: string, n: nat, front: string, plus: string, digits: string, back: string)
    requires Parts(s, n, front, plus, digits, back)
    ensures Trim(s) == plus + digits
  {
    var core := plus + digits;
    CoreEdges(plus, digits);
    assert s == front + (core + back);
    TrimStartOff(front, core + back);
    TrimEndOff(core, back);
  }

  lemma ParseCore(plus: string, digits: string)
    requires (plus == "" || plus == "+") && digits != "" && Digits(digits)
    ensures ParseUsize(plus + digits)
         == if Value(digits) < 0x1_0000_0000_0000_0000 then Some(Value(digits)) else None
  {
    DigitsAre(digits);
    NumberIs(digits);
    if plus == "+" {
      assert (plus + digits)[1..] == digits;
    } else {
      assert plus + digits == digits;
      DigitIs(digits[0]);
    }
  }

  lemma TrimSplits(s: string) returns (front: string, back: string)
    ensures s == front + Trim(s) + back && AllBlank(front) && AllBlank(back)
  {
    front := TrimStartSplits(s);
    back := TrimEndSplits(TrimStart(s));
    assert front + (Trim(s) + back) == front + Trim(s) + back;
  }

  lemma CoreSplits(core: string, n: nat) returns (plus: string, digits: string)
    requires ParseUsize(core) == Some(n)
    ensures core == plus + digits && (plus == "" || plus == "+")
    ensures digits != "" && Digits(digits) && Value(digits) == n && n < 0x1_0000_0000_0000_0000
  {
    plus := if |core| > 1 && core[0] == '+' then "+" else "";
    digits := core[|plus|..];
    DigitsAre(digits);
    NumberIs(digits);
  }

  lemma ParsedIsSpelled(s: string, n: nat)
    requires ParseUsize(Trim(s)) == Some(n)
    ensures Spelled(s, n)
  {
    var front, back := TrimSplits(s);
    var plus, digits := CoreSplits(Trim(s), n);
    assert Parts(s, n, front, plus, digits, back);
  }

  lemma SpelledIsParsed(s: string, n: nat)
    requires Spelled(s, n)
    ensures ParseUsize(Trim(s)) == Some(n)
  {
    var front, plus, digits, back :| Parts(s, n, front, plus, digits, back);
    TrimParts(s, n, front, plus, digits, back);
    ParseCore(plus, digits);
  }

  /** Trimmed text parses to n exactly when it is a number n with white space around. */
  lemma ParseIff(s: string, n: nat)
    ensures ParseUsize(Trim(s)) == Some(n) <==> Spelled(s, n)
  {
    if ParseUsize(Trim(s)) == Some(n) { ParsedIsSpelled(s, n); }
    if Spelled(s, n) { SpelledIsParsed(s, n); }
  }

  // ----- numbered lines

  /** The first colon followed by a blank stands right before position at. */
  ghost predicate FirstColon(t: string, at: nat) {
    && 2 <= at <= |t| && t[at - 2] == ':' && t[at - 1] == ' '
    && forall i :: 0 <= i < at - 2 ==> !(t[i] == ':' && t[i + 1] == ' ')
  }

  lemma ColonAt(t: string, i: int)
    ensures OccursAt(t, ": ", i) <==> 0 <= i && i + 2 <= |t| && t[i] == ':' && t[i + 1] == ' '
  {
    if 0 <= i && i + 2 <= |t| {
      assert t[i..i + 2] == [t[i], t[i + 1]];
    }
  }

  lemma FindColonIff(t: string, at: nat)
    requires at >= 2
    ensures Find(t, ": ", 0) == at - 2 <==> FirstColon(t, at)
  {
    FindFirst(t, ": ", 0);
    ColonAt(t, at - 2);
    if FirstColon(t, at) {
      forall i | 0 <= i < at - 2 ensures !OccursAt(t, ": ", i) { ColonAt(t, i); }
      FoundAt(t, ": ", at - 2);
    }
    if Find(t, ": ", 0) == at - 2 {
      forall i | 0 <= i < at - 2 ensures !(t[i] == ':' && t[i + 1] == ' ') { ColonAt(t, i); }
    }
  }

  /** A number n with white space around stands in front of the first ": " of t, and at is behind it. */
  ghost predicate StartsWithNumber(t: string, n: nat, at: nat) {
    FirstColon(t, at) && Spelled(t[..at - 2], n)
  }

  /** A line is the first one of statement n, with its text from position at on, exactly if it starts like
      that. */
  lemma NumberedIff(t: string, n: nat, at: nat)
    ensures Numbered(t) == Some((n, at)) <==> StartsWithNumber(t, n, at)
  {
    var pos := Find(t, ": ", 0);
    if at >= 2 {
      FindColonIff(t, at);
      if pos == at - 2 { ParseIff(t[..at - 2], n); }
    }
  }

  /** Any other line is no first line. */
  lemma PlainIff(t: string)
    ensures Numbered(t).None? <==> forall n: nat, at: nat :: !StartsWithNumber(t, n, at)
  {
    forall n: nat, at: nat ensures Numbered(t) == Some((n, at)) <==> StartsWithNumber(t, n, at) {
      NumberedIff(t, n, at);
    }
    if Numbered(t).Some? {
      assert StartsWithNumber(t, Numbered(t).value.0, Numbered(t).value.1);
    }
  }

  // ----- printed numbers

  /** A printed number has no leading zero, and is worth what it was printed for. */
  lemma {:induction false} DecimalIs(n: nat)
    ensures Digits(Decimal(n)) && Value(Decimal(n)) == n && (n > 0 ==> Decimal(n)[0] != '0')
  {
    NumberOfDecimal(n);
    NumberIs(Decimal(n));
    if n >= 10 { DecimalIs(n / 10); }
  }

  lemma {:induction false} LeftPadIs(s: string, width: nat) returns (pad: string)
    ensures LeftPad(s, width) == pad + s && (forall i :: 0 <= i < |pad| ==> pad[i] == ' ')
    ensures |pad| == if |s| < width then width - |s| else 0
    decreases width - |s|
  {
    if |s| >= width {
      pad := "";
      assert pad + s == s;
    } else {
      var p := LeftPadIs(" " + s, width);
      pad := p + " ";
      assert p + (" " + s) == pad + s;
    }
  }

  /** In front of a statement stands its index, right-aligned in four columns. */
  lemma PaddedIs(n: nat) returns (pad: string)
    ensures Padded(n) == pad + Decimal(n) && (forall i :: 0 <= i < |pad| ==> pad[i] == ' ')
    ensures |Padded(n)| == if |Decimal(n)| < 4 then 4 else |Decimal(n)|
  {
    pad := LeftPadIs(Decimal(n), 4);
  }
}
