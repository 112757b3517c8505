/** The failure log of the stateful fuzzer - a header, a marked script of numbered statements - and
    the parser that reads the script back. The printer is the specification of the parser. */
module ScriptLog {
  import opened ScriptText
  import opened Words

  /** The marks around the script. */
  datatype Marks = Marks(start: string, end: string)

  const MARKS := Marks("--- script ---", "--- end script ---")

  datatype Item = Item(num: nat, text: string)

  // ----- the parser

  /** The text behind the first occurrence of pat, empty if there is none. */
  function After(s: string, pat: string): string {
    var i := Find(s, pat, 0);
    if i == -1 then "" else s[i + |pat|..]
  }

  /** The text in front of the first occurrence of pat, all of it if there is none. */
  function Before(s: string, pat: string): string {
    var i := Find(s, pat, 0);
    if i == -1 then s else s[..i]
  }

  /** The text up to the first start mark, and of that the text up to the first end mark. */
  function CutRest(ms: Marks, rest: string): string { Before(Before(rest, ms.start), ms.end) }

  /** The text after the first start mark, cut at the next mark. */
  function Body(ms: Marks, text: string): string { CutRest(ms, After(text, ms.start)) }

  /** The number that makes line t the first line of a statement, with where its text starts. */
  function Numbered(t: string): (r: Option<(nat, nat)>)
    ensures r.Some? ==> 2 <= r.value.1 <= |t|
  {
    var pos := Find(t, ": ", 0);
    if pos == -1 then None
    else match ParseUsize(Trim(t[..pos]))
         case None => None
         case Some(n) => Some((n, pos + 2))
  }

  /** The effect of one line on the statements read so far. */
  function AddLine(out: seq<Item>, ln: string): seq<Item> {
    var t := TrimStart(ln);
    if t == "" || StartsWith(t, "note:") then out
    else match Numbered(t)
         case Some((n, at)) => out + [Item(n, t[at..])]
         case None =>
           if out == [] then out
           else
             var last := out[|out| - 1];
             out[|out| - 1 := Item(last.num, last.text + "\n" + t)]
  }

  function AddLines(out: seq<Item>, lines: seq<string>): seq<Item>
    decreases |lines|
  {
    if lines == [] then out else AddLines(AddLine(out, lines[0]), lines[1..])
  }

  /** One turn of the parser's loop. */
  method ReadLine(out: seq<Item>, ln: string) returns (out': seq<Item>)
    ensures out' == AddLine(out, ln)
  {
    out' := out;
    var t := TrimStart(ln);
    if t == "" || StartsWith(t, "note:") {
      return;
    }
    match Numbered(t)
    case Some((n, at)) =>
      out' := out + [Item(n, t[at..])];
    case None =>
      if |out| > 0 {
        var last := out[|out| - 1];
        out' := out[|out| - 1 := Item(last.num, last.text + "\n" + t)];
      }
  }

  lemma NextLine(out: seq<Item>, lines: seq<string>, i: nat)
    requires i < |lines|
    ensures AddLines(out, lines[i..]) == AddLines(AddLine(out, lines[i]), lines[i + 1..])
  {
    assert lines[i..][1..] == lines[i + 1..];
  }

  /** The loop over the lines of the body. */
  method ReadLines(lines: seq<string>) returns (out: seq<Item>)
    ensures out == AddLines([], lines)
  {
    out := [];
    var i := 0;
    assert lines[0..] == lines;
    while i < |lines|
      invariant 0 <= i <= |lines|
      invariant AddLines(out, lines[i..]) == AddLines([], lines)
    {
      NextLine(out, lines, i);
      out := ReadLine(out, lines[i]);
      i := i + 1;
    }
  }

  function Parsed(ms: Marks, text: string): seq<Item> { AddLines([], Lines(Body(ms, text))) }

  method ParseScript(text: string) returns (out: seq<Item>)
    ensures out == Parsed(MARKS, text)
  {
    out := ReadLines(Lines(Body(MARKS, text)));
  }

  // ----- the printer

  function LeftPad(s: string, width: nat): string
    decreases width - |s|
  {
    if |s| >= width then s else LeftPad(" " + s, width)
  }

  /** The number, right-aligned in four columns. */
  function Padded(n: nat): string { LeftPad(Decimal(n), 4) }

  function Chunk(i: nat, s: string): string { Padded(i) + ": " + s + "\n" }

  function Printed(script: seq<string>, from: nat): string
    requires from <= |script|
    decreases |script| - from
  {
    if from == |script| then "" else Chunk(from, script[from]) + Printed(script, from + 1)
  }

  /** What the log says about the failure before the script. */
  datatype Failure = Failure(seed: nat, caseNo: nat, index: nat, msg: string, stmt: string)

  function Opening(f: Failure): string {
    "\n=== STATEFUL FUZZ DIVERGENCE ===\nseed=" + Decimal(f.seed) + " case="
    + Decimal(f.caseNo) + " stmt #" + Decimal(f.index) + ": "
  }

  function Header(f: Failure): string { Opening(f) + (f.msg + ("\n  SQL: " + (f.stmt + "\n"))) }

  function Log(ms: Marks, header: string, script: seq<string>): string {
    header + ms.start + "\n" + Printed(script, 0) + ms.end
  }

  function Enumerated(script: seq<string>, from: nat): seq<Item>
    requires from <= |script|
    decreases |script| - from
  {
    if from == |script| then [] else [Item(from, script[from])] + Enumerated(script, from + 1)
  }

  // ----- which statements survive

  /** A continuation line that the parser keeps as it is. */
  predicate GoodLine(l: string) {
    && l != "" && !IsSpace(l[0]) && l[|l| - 1] != '\r'
    && !StartsWith(l, "note:") && Numbered(l).None?
  }

  /** All lines of u are good continuation lines. */
  predicate GoodRest(u: string)
    decreases |u|
  {
    var i := LineEnd(u);
    GoodLine(u[..i]) && (i == |u| || GoodRest(u[i + 1..]))
  }

  /** The first line may be anything that does not end in a carriage return; the others must be good. */
  predicate GoodStatement(s: string) {
    var i := LineEnd(s);
    (i == 0 || s[i - 1] != '\r') && (i == |s| || GoodRest(s[i + 1..]))
  }

  ghost predicate Clean(ms: Marks, s: string) {
    GoodStatement(s) && !Contains(s, ms.start) && !Contains(s, ms.end)
  }

  // ----- how much text a parse holds

  function Size(out: seq<Item>): nat {
    if out == [] then 0 else Size(out[..|out| - 1]) + |out[|out| - 1].text|
  }

  lemma SizeAppend(out: seq<Item>, x: Item)
    ensures Size(out + [x]) == Size(out) + |x.text|
  {
    assert (out + [x])[..|out|] == out;
  }

  function Appended(out: seq<Item>, t: string): seq<Item>
    requires out != []
  {
    var last := out[|out| - 1];
    out[|out| - 1 := Item(last.num, last.text + t)]
  }

  lemma SizeAppended(out: seq<Item>, t: string)
    requires out != []
    ensures Size(Appended(out, t)) == Size(out) + |t|
  {
    assert Appended(out, t)[..|out| - 1] == out[..|out| - 1];
  }

  lemma AppendedTwice(out: seq<Item>, t: string, u: string)
    requires out != []
    ensures Appended(Appended(out, t), u) == Appended(out, t + u)
  {
    SeqAssoc(out[|out| - 1].text, t, u);
  }

  lemma {:induction false} AddLinesConcat(out: seq<Item>, a: seq<string>, b: seq<string>)
    ensures AddLines(out, a + b) == AddLines(AddLines(out, a), b)
    decreases |a|
  {
    if a == [] {
      assert a + b == b;
    } else {
      assert (a + b)[0] == a[0] && (a + b)[1..] == a[1..] + b;
      AddLinesConcat(AddLine(out, a[0]), a[1..], b);
    }
  }

  lemma AddOne(out: seq<Item>, l: string, rest: seq<string>)
    ensures AddLines(out, [l] + rest) == AddLines(AddLine(out, l), rest)
  {
    assert ([l] + rest)[1..] == rest;
  }

  // ----- one continuation line

  /** A good line is appended whole; any other line adds less text than it has. */
  lemma ContinuationLine(out: seq<Item>, l: string, ln: string)
    requires out != [] && (ln == l || ln == StripCr(l))
    ensures AddLine(out, ln) != []
    ensures Size(AddLine(out, ln)) <= Size(out) + 1 + |l|
    ensures GoodLine(l) ==> AddLine(out, ln) == Appended(out, "\n" + l)
    ensures !GoodLine(l) && ln == StripCr(l) ==> Size(AddLine(out, ln)) < Size(out) + 1 + |l|
  {
    var t := TrimStart(ln);
    TrimStartIs(ln);
    if t == "" || StartsWith(t, "note:") {
    } else {
      match Numbered(t)
      case Some((n, at)) =>
        SizeAppend(out, Item(n, t[at..]));
      case None =>
        SeqAssoc(out[|out| - 1].text, "\n", t);
        assert AddLine(out, ln) == Appended(out, "\n" + t);
        SizeAppended(out, "\n" + t);
    }
  }

  // ----- the lines after the first one

  lemma GoodRestSplit(l: string, rest: string)
    requires NoNewline(l)
    ensures GoodRest(l + "\n" + rest) <==> GoodLine(l) && GoodRest(rest)
  {
    LineEndAt(l, rest);
  }

  lemma GoodRestLine(l: string)
    requires NoNewline(l)
    ensures GoodRest(l) <==> GoodLine(l)
  {
    LineEndAll(l);
    WholeText(l);
  }

  lemma {:induction false} Continuation(out: seq<Item>, u: string)
    requires out != []
    ensures Size(AddLines(out, Lines(u + "\n"))) <= Size(out) + 1 + |u|
    ensures GoodRest(u) ==> AddLines(out, Lines(u + "\n")) == Appended(out, "\n" + u)
    ensures !GoodRest(u) ==> Size(AddLines(out, Lines(u + "\n"))) < Size(out) + 1 + |u|
    decreases |u|
  {
    var l, more, rest := SplitLine(u);
    var ln := StripCr(l);
    ContinuationLine(out, l, ln);
    var out1 := AddLine(out, ln);
    if more {
      SeqAssoc(l + "\n", rest, "\n");
      FirstLine(l, rest + "\n");
      AddOne(out, ln, Lines(rest + "\n"));
      Continuation(out1, rest);
      GoodRestSplit(l, rest);
      if GoodRest(u) {
        AppendedTwice(out, "\n" + l, "\n" + rest);
        JoinLines(l, rest);
      }
    } else {
      FirstLine(l, "");
      assert l + "\n" + "" == u + "\n";
      AddOne(out, ln, []);
      GoodRestLine(l);
    }
  }

  lemma JoinLines(l: string, rest: string)
    ensures ("\n" + l) + ("\n" + rest) == "\n" + (l + "\n" + rest)
  {
  }

  /** The same bound when the text is cut off before its last line feed. */
  lemma {:induction false} CutContinuation(out: seq<Item>, u: string)
    requires out != []
    ensures Size(AddLines(out, Lines(u))) <= Size(out) + 1 + |u|
    decreases |u|
  {
    var l, more, rest := SplitLine(u);
    if more {
      FirstLine(l, rest);
      ContinuationLine(out, l, StripCr(l));
      AddOne(out, StripCr(l), Lines(rest));
      CutContinuation(AddLine(out, StripCr(l)), rest);
    } else if l != "" {
      LastLine(l);
      ContinuationLine(out, l, l);
      AddOne(out, l, []);
    }
  }

  // ----- a whole printed statement

  lemma FindColon(d: string, l: string)
    requires AllDigits(d)
    ensures Find(d + ": " + l, ": ", 0) == |d|
  {
    var t := d + ": " + l;
    assert t[|d|..|d| + 2] == ": ";
    assert OccursAt(t, ": ", |d|);
    forall r | 0 <= r < |d| ensures !OccursAt(t, ": ", r) {
      assert t[r] == d[r] && IsDigit(d[r]);
      if OccursAt(t, ": ", r) { OccursFirst(t, ": ", r); }
    }
    FoundAt(t, ": ", |d|);
  }

  lemma {:induction false} TrimDigits(d: string)
    requires AllDigits(d) && d != ""
    ensures Trim(d) == d
  {
    assert IsDigit(d[0]) && IsDigit(d[|d| - 1]);
  }

  lemma {:induction false} TrimLeftPad(d: string, width: nat, l: string)
    ensures TrimStart(LeftPad(d, width) + l) == TrimStart(d + l)
    decreases width - |d|
  {
    if |d| >= width {
    } else {
      TrimLeftPad(" " + d, width, l);
      SeqAssoc(" ", d, l);
      assert (" " + (d + l))[1..] == d + l;
    }
  }

  lemma NoPadding(d: string, l: string)
    requires d != "" && AllDigits(d)
    ensures TrimStart(d + l) == d + l
  {
    DigitNoSpace(d[0]);
    NoSpaceFirst(d + l, d[0]);
  }

  lemma DigitNoSpace(c: char)
    requires IsDigit(c)
    ensures !IsSpace(c)
  {
  }

  lemma NoSpaceFirst(s: string, c: char)
    requires s != "" && s[0] == c && !IsSpace(c)
    ensures TrimStart(s) == s
  {
    TrimStartIs(s);
  }

  lemma TrimPadding(i: nat, l: string)
    ensures TrimStart(Padded(i) + ": " + l) == Decimal(i) + ": " + l
  {
    var d := Decimal(i);
    SeqAssoc(LeftPad(d, 4), ": ", l);
    TrimLeftPad(d, 4, ": " + l);
    NoPadding(d, ": " + l);
    SeqAssoc(d, ": ", l);
  }

  lemma NumberedHeader(i: nat, l: string)
    requires i < TWO64
    ensures Numbered(Decimal(i) + ": " + l) == Some((i, |Decimal(i)| + 2))
  {
    var d := Decimal(i);
    FindColon(d, l);
    assert (d + ": " + l)[..|d|] == d;
    TrimDigits(d);
    ParseDecimal(i);
  }

  lemma NotANote(d: string, l: string)
    requires d != "" && AllDigits(d)
    ensures !StartsWith(d + ": " + l, "note:") && d + ": " + l != ""
  {
    var t := d + ": " + l;
    assert t[0] == d[0] && IsDigit(d[0]);
    if StartsWith(t, "note:") { OccursFirst(t, "note:", 0); }
  }

  /** Without its padding, t, the line ln starts statement n with the text rest. */
  predicate Starts(ln: string, t: string, n: nat, rest: string) {
    && TrimStart(ln) == t && t != "" && !StartsWith(t, "note:")
    && Numbered(t).Some? && Numbered(t).value.0 == n && t[Numbered(t).value.1..] == rest
  }

  lemma AddNumbered(out: seq<Item>, ln: string, t: string, n: nat, rest: string)
    requires Starts(ln, t, n, rest)
    ensures AddLine(out, ln) == out + [Item(n, rest)]
  {
  }

  lemma AfterColon(d: string, l: string)
    ensures (d + ": " + l)[|d| + 2..] == l
  {
  }

  lemma HeaderStarts(i: nat, l: string)
    requires i < TWO64
    ensures Starts(Padded(i) + ": " + l, Decimal(i) + ": " + l, i, l)
  {
    TrimPadding(i, l);
    NotANote(Decimal(i), l);
    NumberedHeader(i, l);
    AfterColon(Decimal(i), l);
  }

  /** The first line of a printed statement starts a new item with exactly the rest of the line. */
  lemma HeaderLine(out: seq<Item>, i: nat, l: string)
    requires i < TWO64
    ensures AddLine(out, Padded(i) + ": " + l) == out + [Item(i, l)]
  {
    HeaderStarts(i, l);
    AddNumbered(out, Padded(i) + ": " + l, Decimal(i) + ": " + l, i, l);
  }

  lemma {:induction false} LeftPadChars(d: string, width: nat)
    ensures |LeftPad(d, width)| >= |d|
    ensures forall c :: c in LeftPad(d, width) ==> c == ' ' || c in d
    decreases width - |d|
  {
    if |d| >= width {
    } else {
      LeftPadChars(" " + d, width);
    }
  }

  lemma PrefixFacts(i: nat)
    ensures NoNewline(Padded(i) + ": ") && '-' !in Padded(i) + ": " && Padded(i) != ""
  {
    var d := Decimal(i);
    LeftPadChars(d, 4);
    forall c | c in d ensures c != '\n' && c != '-' {
      var k :| 0 <= k < |d| && d[k] == c;
      assert IsDigit(d[k]);
    }
  }

  lemma StripPrefix(p: string, l: string)
    requires p != "" && p[|p| - 1] != '\r'
    ensures StripCr(p + l) == p + StripCr(l)
  {
    if l != "" { assert (p + l)[..|p + l| - 1] == p + l[..|l| - 1]; }
  }

  lemma ChunkFirstLine(out: seq<Item>, i: nat, l: string, rest: string)
    requires i < TWO64 && NoNewline(l)
    ensures AddLines(out, Lines(Padded(i) + ": " + l + "\n" + rest))
         == AddLines(out + [Item(i, StripCr(l))], Lines(rest))
  {
    var p := Padded(i) + ": ";
    PrefixFacts(i);
    FirstLine(p + l, rest);
    StripPrefix(p, l);
    HeaderLine(out, i, StripCr(l));
    AddOne(out, p + StripCr(l), Lines(rest));
  }

  lemma GoodStatementSplit(l: string, rest: string)
    requires NoNewline(l)
    ensures GoodStatement(l + "\n" + rest) <==> StripCr(l) == l && GoodRest(rest)
  {
    LineEndAt(l, rest);
    if l != "" { LastOf(l, "\n" + rest); }
    SeqAssoc(l, "\n", rest);
  }

  lemma LastOf(l: string, more: string)
    requires l != ""
    ensures (l + more)[|l| - 1] == l[|l| - 1]
  {
  }

  lemma GoodStatementLine(l: string)
    requires NoNewline(l)
    ensures GoodStatement(l) <==> StripCr(l) == l
  {
    LineEndAll(l);
  }

  lemma ChunkSplit(i: nat, l: string, rest: string)
    ensures Chunk(i, l) == Padded(i) + ": " + l + "\n" + ""
    ensures Chunk(i, l + "\n" + rest) == Padded(i) + ": " + l + "\n" + (rest + "\n")
  {
  }

  lemma LongChunkParse(out: seq<Item>, i: nat, l: string, rest: string)
    requires i < TWO64 && NoNewline(l)
    ensures var s := l + "\n" + rest;
            var r := AddLines(out, Lines(Chunk(i, s)));
            && Size(r) <= Size(out) + |s|
            && (GoodStatement(s) ==> r == out + [Item(i, s)])
            && (!GoodStatement(s) ==> Size(r) < Size(out) + |s|)
  {
    var out1 := out + [Item(i, StripCr(l))];
    SizeAppend(out, Item(i, StripCr(l)));
    GoodStatementSplit(l, rest);
    ChunkSplit(i, l, rest);
    ChunkFirstLine(out, i, l, rest + "\n");
    Continuation(out1, rest);
    if StripCr(l) == l && GoodRest(rest) { AppendToLast(out, i, l, rest); }
  }

  lemma AppendToLast(out: seq<Item>, i: nat, l: string, rest: string)
    ensures Appended(out + [Item(i, l)], "\n" + rest) == out + [Item(i, l + "\n" + rest)]
  {
    SeqAssoc(l, "\n", rest);
  }

  /** A good statement comes back whole; any other one comes back with less text. */
  lemma ChunkParse(out: seq<Item>, i: nat, s: string)
    requires i < TWO64
    ensures Size(AddLines(out, Lines(Chunk(i, s)))) <= Size(out) + |s|
    ensures GoodStatement(s) ==> AddLines(out, Lines(Chunk(i, s))) == out + [Item(i, s)]
    ensures !GoodStatement(s) ==> Size(AddLines(out, Lines(Chunk(i, s)))) < Size(out) + |s|
  {
    var l, more, rest := SplitLine(s);
    if more {
      LongChunkParse(out, i, l, rest);
    } else {
      GoodStatementLine(l);
      SizeAppend(out, Item(i, StripCr(l)));
      ChunkSplit(i, l, "");
      ChunkFirstLine(out, i, l, "");
    }
  }

  /** A statement cut off inside its text comes back with no more text than was left. */
  lemma CutChunk(out: seq<Item>, i: nat, u: string)
    requires i < TWO64
    ensures Size(AddLines(out, Lines(Padded(i) + ": " + u))) <= Size(out) + |u|
  {
    var l, more, rest := SplitLine(u);
    var p := Padded(i) + ": ";
    if more {
      assert p + u == p + l + "\n" + rest;
      ChunkFirstLine(out, i, l, rest);
      SizeAppend(out, Item(i, StripCr(l)));
      CutContinuation(out + [Item(i, StripCr(l))], rest);
    } else {
      PrefixFacts(i);
      LastLine(p + l);
      HeaderLine(out, i, l);
      AddOne(out, p + l, []);
      SizeAppend(out, Item(i, l));
    }
  }

  // ----- a whole printed script

  function TextLength(script: seq<string>, from: nat): nat
    requires from <= |script|
    decreases |script| - from
  {
    if from == |script| then 0 else |script[from]| + TextLength(script, from + 1)
  }

  predicate AllGood(script: seq<string>, from: nat)
    requires from <= |script|
    decreases |script| - from
  {
    from == |script| || (GoodStatement(script[from]) && AllGood(script, from + 1))
  }

  lemma ChunkEnds(i: nat, s: string)
    ensures EndsLine(Chunk(i, s))
  {
  }

  lemma {:induction false} PrintedParse(out: seq<Item>, script: seq<string>, from: nat)
    requires from <= |script| <= TWO64
    ensures Size(AddLines(out, Lines(Printed(script, from)))) <= Size(out) + TextLength(script, from)
    ensures AllGood(script, from) ==> AddLines(out, Lines(Printed(script, from))) == out + Enumerated(script, from)
    ensures !AllGood(script, from) ==>
              Size(AddLines(out, Lines(Printed(script, from)))) < Size(out) + TextLength(script, from)
    decreases |script| - from
  {
    if from == |script| {
      assert out + [] == out;
    } else {
      var c := Chunk(from, script[from]);
      ChunkEnds(from, script[from]);
      LinesConcat(c, Printed(script, from + 1));
      AddLinesConcat(out, Lines(c), Lines(Printed(script, from + 1)));
      ChunkParse(out, from, script[from]);
      var out1 := AddLines(out, Lines(c));
      PrintedParse(out1, script, from + 1);
      if AllGood(script, from) {
        SeqAssoc(out, [Item(from, script[from])], Enumerated(script, from + 1));
      }
    }
  }

  lemma {:induction false} EnumeratedSize(out: seq<Item>, script: seq<string>, from: nat)
    requires from <= |script|
    ensures Size(out + Enumerated(script, from)) == Size(out) + TextLength(script, from)
    decreases |script| - from
  {
    if from == |script| {
      assert out + [] == out;
    } else {
      var x := Item(from, script[from]);
      SizeAppend(out, x);
      EnumeratedSize(out + [x], script, from + 1);
      SeqAssoc(out, [x], Enumerated(script, from + 1));
    }
  }

  /** The cut inside the first statement. */
  lemma CutHere(out: seq<Item>, from: nat, s: string, more: string, m: nat)
    requires from < TWO64 && m < |Chunk(from, s)| && Chunk(from, s)[m] == '-'
    ensures Size(AddLines(out, Lines((Chunk(from, s) + more)[..m]))) < Size(out) + |s|
  {
    var c, p := Chunk(from, s), Padded(from) + ": ";
    InText(from, s, m);
    TakeFirst(c, more, m);
    TakeText(p, s, "\n", m);
    CutChunk(out, from, s[..m - |p|]);
  }

  lemma TakeFirst(a: string, b: string, m: nat)
    requires m <= |a|
    ensures (a + b)[..m] == a[..m]
  {
  }

  lemma TakeText(p: string, s: string, end: string, m: nat)
    requires |p| <= m <= |p| + |s|
    ensures (p + s + end)[..m] == p + s[..m - |p|]
  {
  }

  lemma TakeMore(a: string, b: string, m: nat, k: nat)
    requires k <= |b| && m == |a| + k
    ensures (a + b)[..m] == a + b[..k]
  {
  }

  /** How much text is held after reading one more piece. */
  function Kept(out: seq<Item>, text: string): nat { Size(AddLines(out, Lines(text))) }

  /** Text that ends with a line feed is read before what follows. */
  lemma KeptLater(out: seq<Item>, c: string, more: string, all: string, m: nat, k: nat)
    requires EndsLine(c) && all == c + more && k <= |more| && m == |c| + k
    ensures Kept(out, all[..m]) == Kept(AddLines(out, Lines(c)), more[..k])
  {
    TakeMore(c, more, m, k);
    LinesConcat(c, more[..k]);
    AddLinesConcat(out, Lines(c), Lines(more[..k]));
  }

  lemma DashLater(a: string, b: string, k: nat)
    requires |a| + k < |a + b|
    ensures k < |b| && (a + b)[|a| + k] == b[k]
  {
  }

  /** The cut is at a dash of the printed script. */
  predicate DashAt(script: seq<string>, from: nat, m: nat) {
    from <= |script| <= TWO64 && m < |Printed(script, from)| && Printed(script, from)[m] == '-'
  }

  /** What the cut leaves holds less text than the script. */
  predicate LosesText(out: seq<Item>, script: seq<string>, from: nat, m: nat)
    requires from <= |script| && m <= |Printed(script, from)|
  {
    Kept(out, Printed(script, from)[..m]) < Size(out) + TextLength(script, from)
  }

  lemma CutFirst(out: seq<Item>, script: seq<string>, from: nat, m: nat)
    requires DashAt(script, from, m) && from < |script| && m < |Chunk(from, script[from])|
    ensures LosesText(out, script, from, m)
  {
    DashInFirst(Chunk(from, script[from]), Printed(script, from + 1), m);
    CutHere(out, from, script[from], Printed(script, from + 1), m);
  }

  lemma DashOn(script: seq<string>, from: nat, m: nat, k: nat)
    requires DashAt(script, from, m) && from < |script| && m == |Chunk(from, script[from])| + k
    ensures DashAt(script, from + 1, k)
  {
    DashLater(Chunk(from, script[from]), Printed(script, from + 1), k);
  }

  lemma SizeAfter(out: seq<Item>, from: nat, s: string)
    requires from < TWO64
    ensures Size(AddLines(out, Lines(Chunk(from, s)))) <= Size(out) + |s|
  {
    ChunkParse(out, from, s);
  }

  lemma KeptRest(out: seq<Item>, script: seq<string>, from: nat, c: string, m: nat, k: nat)
    requires from < |script| && c == Chunk(from, script[from]) && m == |c| + k && k <= |Printed(script, from + 1)|
    ensures m <= |Printed(script, from)|
    ensures Kept(out, Printed(script, from)[..m]) == Kept(AddLines(out, Lines(c)), Printed(script, from + 1)[..k])
  {
    var more := Printed(script, from + 1);
    ChunkEnds(from, script[from]);
    KeptLater(out, c, more, Printed(script, from), m, k);
  }

  lemma CutRestOf(out: seq<Item>, script: seq<string>, from: nat, c: string, m: nat, k: nat)
    requires from < |script| <= TWO64 && c == Chunk(from, script[from]) && m == |c| + k
    requires m <= |Printed(script, from)| && k <= |Printed(script, from + 1)|
    requires LosesText(AddLines(out, Lines(c)), script, from + 1, k)
    ensures LosesText(out, script, from, m)
  {
    KeptRest(out, script, from, c, m, k);
    SizeAfter(out, from, script[from]);
  }

  lemma DashInFirst(a: string, b: string, m: nat)
    requires m < |a|
    ensures (a + b)[m] == a[m]
  {
  }

  /** Cut at a character that only statement text can hold, the script comes back with less text. */
  lemma {:induction false} CutPrinted(out: seq<Item>, script: seq<string>, from: nat, m: nat)
    requires DashAt(script, from, m)
    ensures LosesText(out, script, from, m)
    decreases |script| - from
  {
    var c := Chunk(from, script[from]);
    if m < |c| {
      CutFirst(out, script, from, m);
    } else {
      var k := m - |c|;
      DashOn(script, from, m, k);
      CutPrinted(AddLines(out, Lines(c)), script, from + 1, k);
      CutRestOf(out, script, from, c, m, k);
    }
  }

  /** A dash inside a printed statement is part of its text. */
  lemma InText(i: nat, s: string, m: nat)
    requires m < |Chunk(i, s)| && Chunk(i, s)[m] == '-'
    ensures var p := Padded(i) + ": "; |p| <= m < |p| + |s|
  {
    var p := Padded(i) + ": ";
    PrefixFacts(i);
    forall k | 0 <= k < |p| ensures Chunk(i, s)[k] != '-' { assert Chunk(i, s)[k] == p[k]; }
  }

  // ----- markers

  /** What matters about the two markers: they start with a dash and hold no line feed. */
  predicate IsMarker(pat: string) { pat != "" && pat[0] == '-' && NoNewline(pat) }

  lemma OccursChar(s: string, pat: string, i: int, k: nat)
    requires OccursAt(s, pat, i) && k < |pat|
    ensures s[i + k] == pat[k]
  {
    assert s[i..i + |pat|][k] == s[i + k];
  }

  lemma OccursShift(a: string, b: string, pat: string, i: int)
    requires i >= |a|
    ensures OccursAt(a + b, pat, i) <==> OccursAt(b, pat, i - |a|)
  {
    if i + |pat| <= |a + b| {
      assert (a + b)[i..i + |pat|] == b[i - |a|..i - |a| + |pat|];
    }
  }

  lemma OccursWithin(a: string, b: string, pat: string, i: int)
    requires 0 <= i && i + |pat| <= |a|
    ensures OccursAt(a + b, pat, i) <==> OccursAt(a, pat, i)
  {
    assert (a + b)[i..i + |pat|] == a[i..i + |pat|];
  }

  /** A marker that starts before a line feed ends before it. */
  lemma MarkerInLine(s: string, pat: string, i: int, nl: nat)
    requires IsMarker(pat) && OccursAt(s, pat, i) && i < nl < |s| && s[nl] == '\n'
    ensures i + |pat| <= nl
  {
    var k: nat := if nl < i + |pat| then nl - i else 0;
    OccursChar(s, pat, i, k);
  }

  lemma MarkerInChunk(i: nat, s: string, tail: string, pat: string, at: nat)
    requires IsMarker(pat) && OccursAt(Chunk(i, s) + tail, pat, at) && at < |Chunk(i, s)|
    ensures Contains(s, pat)
  {
    var p := Padded(i) + ": ";
    var c := Chunk(i, s);
    var t := c + tail;
    OccursFirst(t, pat, at);
    assert t[at] == c[at] == '-';
    InText(i, s, at);
    var nl := |p| + |s|;
    assert t[nl] == c[nl] == '\n';
    MarkerInLine(t, pat, at, nl);
    var rest := "\n" + tail;
    assert t == p + (s + rest);
    OccursShift(p, s + rest, pat, at);
    OccursWithin(s, rest, pat, at - |p|);
  }

  ghost predicate AnyContains(script: seq<string>, from: nat, pat: string) {
    exists j :: from <= j < |script| && Contains(script[j], pat)
  }

  /** A marker that starts in the printed script lies in one of its statements. */
  lemma {:induction false} MarkerInScript(script: seq<string>, from: nat, tail: string, pat: string, at: nat)
    requires from <= |script| && IsMarker(pat)
    requires OccursAt(Printed(script, from) + tail, pat, at) && at < |Printed(script, from)|
    ensures AnyContains(script, from, pat)
    decreases |script| - from
  {
    var c := Chunk(from, script[from]);
    var more := Printed(script, from + 1);
    SeqAssoc(c, more, tail);
    if at < |c| {
      MarkerInChunk(from, script[from], more + tail, pat, at);
    } else {
      OccursShift(c, more + tail, pat, at);
      MarkerInScript(script, from + 1, tail, pat, at - |c|);
      var j :| from + 1 <= j < |script| && Contains(script[j], pat);
    }
  }

  lemma ChunkHoldsMarker(i: nat, s: string, tail: string, pat: string) returns (at: nat)
    requires Contains(s, pat) && pat != ""
    ensures at < |Chunk(i, s)| && OccursAt(Chunk(i, s) + tail, pat, at)
  {
    var k :| OccursAt(s, pat, k);
    var p := Padded(i) + ": ";
    var rest := "\n" + tail;
    at := |p| + k;
    assert Chunk(i, s) + tail == p + (s + rest);
    OccursWithin(s, rest, pat, k);
    OccursShift(p, s + rest, pat, at);
  }

  lemma {:induction false} ScriptHoldsMarker(script: seq<string>, from: nat, tail: string, pat: string)
    returns (at: nat)
    requires from <= |script| && pat != "" && AnyContains(script, from, pat)
    ensures at < |Printed(script, from)| && OccursAt(Printed(script, from) + tail, pat, at)
    decreases |script| - from
  {
    var c := Chunk(from, script[from]);
    var more := Printed(script, from + 1);
    SeqAssoc(c, more, tail);
    if Contains(script[from], pat) {
      at := ChunkHoldsMarker(from, script[from], more + tail, pat);
    } else {
      assert AnyContains(script, from + 1, pat);
      var k := ScriptHoldsMarker(script, from + 1, tail, pat);
      at := |c| + k;
      OccursShift(c, more + tail, pat, at);
    }
  }

  lemma Differs(s: string, pat: string, i: nat, k: nat)
    requires k < |pat| && i + k < |s| && s[i + k] != pat[k]
    ensures !OccursAt(s, pat, i)
  {
    if i + |pat| <= |s| { assert s[i..i + |pat|][k] == s[i + k]; }
  }

  /** What matters about the two marks: neither can run over a line end, and no start mark lies inside
      an end mark. */
  ghost predicate MarksOk(ms: Marks) {
    && IsMarker(ms.start) && IsMarker(ms.end)
    && forall i :: !OccursAt(ms.end, ms.start, i)
  }

  lemma Letters()
    ensures var s, e := MARKS.start, MARKS.end;
            && |s| == 14 && |e| == 18 && s[0] == '-' && s[2] == '-' && s[4] == 's'
            && e[0] == '-' && e[3] == ' ' && e[4] == 'e'
  {
  }

  lemma NoNewlines()
    ensures NoNewline(MARKS.start) && NoNewline(MARKS.end)
  {
  }

  /** Such a start mark does not fit into such an end mark at any place. */
  lemma NoStart(s: string, e: string, i: int)
    requires |s| == 14 && |e| == 18 && s[0] == '-' && s[2] == '-' && s[4] == 's'
    requires e[3] == ' ' && e[4] == 'e'
    ensures !OccursAt(e, s, i)
  {
    if i < 0 || i > 4 {
      TooLong(e, s, i);
    } else {
      Differs(e, s, i, if i == 0 then 4 else if i <= 2 then 2 else 0);
    }
  }

  lemma MarksAreOk()
    ensures MarksOk(MARKS)
  {
    Letters();
    NoNewlines();
    forall i ensures !OccursAt(MARKS.end, MARKS.start, i) {
      NoStart(MARKS.start, MARKS.end, i);
    }
  }

  lemma TooLong(s: string, pat: string, i: int)
    requires i < 0 || i + |pat| > |s|
    ensures !OccursAt(s, pat, i)
  {
  }

  // ----- what the parser takes as the script

  /** The first marker of the text is the one after the header. */
  lemma FindStart(ms: Marks, header: string, rest: string)
    requires MarksOk(ms)
    requires EndsLine(header) && !Contains(header, ms.start)
    ensures Find(header + ms.start + rest, ms.start, 0) == |header|
  {
    var t := header + ms.start + rest;
    SeqAssoc(header, ms.start, rest);
    assert OccursAt(ms.start + rest, ms.start, 0);
    OccursShift(header, ms.start + rest, ms.start, |header|);
    forall i | 0 <= i < |header| ensures !OccursAt(t, ms.start, i) {
      if OccursAt(t, ms.start, i) {
        var nl := |header| - 1;
        assert t[nl] == header[nl] == '\n';
        OccursFirst(t, ms.start, i);
        MarkerInLine(t, ms.start, i, nl);
        OccursWithin(header, ms.start + rest, ms.start, i);
      }
    }
    FoundAt(t, ms.start, |header|);
  }

  /** The search stops in the printed script when a statement holds the marker. */
  lemma FoundInScript(script: seq<string>, tail: string, pat: string)
    requires IsMarker(pat) && AnyContains(script, 0, pat)
    ensures var all := Printed(script, 0);
            0 <= Find("\n" + all + tail, pat, 0) <= |all|
  {
    var all := Printed(script, 0);
    var at := ScriptHoldsMarker(script, 0, tail, pat);
    SeqAssoc("\n", all, tail);
    OccursShift("\n", all + tail, pat, at + 1);
    FindFirst("\n" + all + tail, pat, 0);
  }

  /** Where it stops in the printed script, there is a dash of a statement that holds the marker. */
  lemma FoundMeans(script: seq<string>, tail: string, pat: string, r: nat)
    requires IsMarker(pat) && r == Find("\n" + Printed(script, 0) + tail, pat, 0) && r <= |Printed(script, 0)|
    ensures r >= 1 && Printed(script, 0)[r - 1] == '-' && AnyContains(script, 0, pat)
  {
    var all := Printed(script, 0);
    var t := "\n" + all + tail;
    FindFirst(t, pat, 0);
    OccursFirst(t, pat, r);
    SeqAssoc("\n", all, tail);
    OccursShift("\n", all + tail, pat, r);
    MarkerInScript(script, 0, tail, pat, r - 1);
  }

  /** Where a marker search in the rest of the log stops. */
  lemma FindInScript(script: seq<string>, tail: string, pat: string)
    requires IsMarker(pat)
    ensures var all := Printed(script, 0);
            var r := Find("\n" + all + tail, pat, 0);
            if AnyContains(script, 0, pat) then 1 <= r <= |all| && all[r - 1] == '-' else r == -1 || r > |all|
  {
    var r := Find("\n" + Printed(script, 0) + tail, pat, 0);
    if AnyContains(script, 0, pat) { FoundInScript(script, tail, pat); }
    if 0 <= r <= |Printed(script, 0)| { FoundMeans(script, tail, pat, r); }
  }

  /** A start marker behind the header's own lies in a statement. */
  lemma StartInScript(ms: Marks, script: seq<string>)
    requires MarksOk(ms)
    ensures var all := Printed(script, 0);
            var r := Find("\n" + all + ms.end, ms.start, 0);
            if AnyContains(script, 0, ms.start) then 1 <= r <= |all| && all[r - 1] == '-' else r == -1
  {
    var a := "\n" + Printed(script, 0);
    var r := Find(a + ms.end, ms.start, 0);
    FindInScript(script, ms.end, ms.start);
    if r >= |a| {
      FindFirst(a + ms.end, ms.start, 0);
      OccursShift(a, ms.end, ms.start, r);
    }
  }

  /** The first end marker is in a statement or at the end. */
  lemma EndInScript(ms: Marks, script: seq<string>)
    requires MarksOk(ms)
    ensures var all := Printed(script, 0);
            var r := Find("\n" + all + ms.end, ms.end, 0);
            if AnyContains(script, 0, ms.end) then 1 <= r <= |all| && all[r - 1] == '-' else r == |all| + 1
  {
    FindInScript(script, ms.end, ms.end);
    FoundBy("\n" + Printed(script, 0), ms.end);
  }

  lemma FindInPrefix(t: string, pat: string, m: nat)
    requires m <= |t|
    ensures Find(t[..m], pat, 0) == -1 || (Find(t[..m], pat, 0) == Find(t, pat, 0) && Find(t, pat, 0) <= m)
  {
    var r := Find(t[..m], pat, 0);
    assert t == t[..m] + t[m..];
    FindFirst(t[..m], pat, 0);
    if r != -1 {
      OccursWithin(t[..m], t[m..], pat, r);
      forall i | 0 <= i < r ensures !OccursAt(t, pat, i) {
        OccursWithin(t[..m], t[m..], pat, i);
      }
      FoundAt(t, pat, r);
    }
  }

  /** After the header and the start marker come a line feed, the printed script and the end marker. */
  lemma LogParts(ms: Marks, header: string, script: seq<string>)
    ensures Log(ms, header, script) == header + ms.start + ("\n" + Printed(script, 0) + ms.end)
  {
    var all := Printed(script, 0);
    SeqAssoc(header + ms.start, "\n", all);
    SeqAssoc(header + ms.start, "\n" + all, ms.end);
  }

  lemma AfterAt(s: string, pat: string, i: nat)
    requires Find(s, pat, 0) == i
    ensures i + |pat| <= |s| && After(s, pat) == s[i + |pat|..]
  {
  }

  lemma BeforeAt(s: string, pat: string, i: nat)
    requires Find(s, pat, 0) == i
    ensures i <= |s| && Before(s, pat) == s[..i]
  {
  }

  lemma Behind(a: string, b: string, d: string)
    ensures (a + b + d)[|a| + |b|..] == d
  {
  }

  lemma BodyIsCut(ms: Marks, header: string, rest: string)
    requires MarksOk(ms)
    requires EndsLine(header) && !Contains(header, ms.start)
    ensures Body(ms, header + ms.start + rest) == CutRest(ms, rest)
  {
    FindStart(ms, header, rest);
    AfterAt(header + ms.start + rest, ms.start, |header|);
    Behind(header, ms.start, rest);
  }

  /** The cut is at the first marker of either kind, or at the end. */
  lemma CutAt(ms: Marks, rest: string) returns (stop: nat)
    ensures stop <= |rest| && CutRest(ms, rest) == rest[..stop]
    ensures var j := Find(rest, ms.start, 0);
            if j == -1 then stop == (if Find(rest, ms.end, 0) == -1 then |rest| else Find(rest, ms.end, 0))
            else stop == j || (stop == Find(rest, ms.end, 0) && stop <= j)
  {
    var j := Find(rest, ms.start, 0);
    var piece := Before(rest, ms.start);
    if j != -1 {
      BeforeAt(rest, ms.start, j);
      FindInPrefix(rest, ms.end, j);
    }
    var k := Find(piece, ms.end, 0);
    if k == -1 {
      stop := |piece|;
      WholeText(piece);
    } else {
      BeforeAt(piece, ms.end, k);
      stop := k;
    }
    TakeTwice(rest, |piece|, stop);
  }

  lemma TakeTwice(t: string, m: nat, k: nat)
    requires k <= m <= |t|
    ensures t[..m][..k] == t[..k]
  {
  }

  lemma WholeText(a: string)
    ensures a[..|a|] == a
  {
  }

  /** Where the cut falls in the rest of a log. */
  lemma CutInScript(ms: Marks, script: seq<string>) returns (stop: nat)
    requires MarksOk(ms)
    ensures var all := Printed(script, 0);
            var rest := "\n" + all + ms.end;
            && 1 <= stop <= 1 + |all| && CutRest(ms, rest) == rest[..stop]
            && (if AnyContains(script, 0, ms.start) || AnyContains(script, 0, ms.end)
                then stop <= |all| && all[stop - 1] == '-'
                else stop == |all| + 1)
  {
    var all := Printed(script, 0);
    var rest := "\n" + all + ms.end;
    stop := CutAt(ms, rest);
    StartInScript(ms, script);
    EndInScript(ms, script);
  }

  lemma CutSlice(all: string, tail: string, stop: nat)
    requires 1 <= stop <= 1 + |all|
    ensures ("\n" + all + tail)[..stop] == "\n" + all[..stop - 1]
  {
  }

  /** The body the parser reads is the printed script, whole when no statement holds a marker, and
      otherwise cut at a dash of some statement. */
  lemma BodyOfLog(ms: Marks, header: string, script: seq<string>) returns (m: nat)
    requires MarksOk(ms)
    requires EndsLine(header) && !Contains(header, ms.start)
    ensures m <= |Printed(script, 0)| && Body(ms, Log(ms, header, script)) == "\n" + Printed(script, 0)[..m]
    ensures if AnyContains(script, 0, ms.start) || AnyContains(script, 0, ms.end)
            then m < |Printed(script, 0)| && Printed(script, 0)[m] == '-'
            else m == |Printed(script, 0)|
  {
    var all := Printed(script, 0);
    LogParts(ms, header, script);
    BodyIsCut(ms, header, "\n" + all + ms.end);
    var stop := CutInScript(ms, script);
    m := stop - 1;
    CutSlice(all, ms.end, stop);
  }

  /** The line feed that ends the marker's own line adds nothing. */
  lemma EmptyFirstLine(text: string)
    ensures AddLines([], Lines("\n" + text)) == AddLines([], Lines(text))
  {
    FirstLine("", text);
    assert "" + "\n" + text == "\n" + text;
    AddOne([], StripCr(""), Lines(text));
  }

  lemma NothingInFront<T>(s: seq<T>)
    ensures [] + s == s
  {
  }

  lemma CleanMeans(ms: Marks, script: seq<string>)
    ensures (forall s :: s in script ==> Clean(ms, s))
       <==> AllGood(script, 0) && !AnyContains(script, 0, ms.start) && !AnyContains(script, 0, ms.end)
  {
    AllGoodMeans(script, 0);
    forall j | 0 <= j < |script| ensures script[j] in script {}
  }

  /** A whole script comes back exactly when every statement is good. */
  lemma WholeScript(script: seq<string>)
    requires |script| <= TWO64
    ensures AddLines([], Lines(Printed(script, 0))) == Enumerated(script, 0) <==> AllGood(script, 0)
  {
    PrintedParse([], script, 0);
    EnumeratedSize([], script, 0);
    NothingInFront(Enumerated(script, 0));
  }

  lemma CutScript(script: seq<string>, m: nat)
    requires |script| <= TWO64 && m < |Printed(script, 0)| && Printed(script, 0)[m] == '-'
    ensures AddLines([], Lines(Printed(script, 0)[..m])) != Enumerated(script, 0)
  {
    CutPrinted([], script, 0, m);
    EnumeratedSize([], script, 0);
    NothingInFront(Enumerated(script, 0));
  }

  /** Round trip after a header without the start marker: reading the log of a script gives back every
      statement with its index - exactly when every statement is clean. */
  lemma PlainRoundTrip(ms: Marks, header: string, script: seq<string>)
    requires MarksOk(ms)
    requires EndsLine(header) && !Contains(header, ms.start) && |script| <= TWO64
    ensures Parsed(ms, Log(ms, header, script)) == Enumerated(script, 0) <==> forall s :: s in script ==> Clean(ms, s)
  {
    var m := BodyOfLog(ms, header, script);
    var all := Printed(script, 0);
    EmptyFirstLine(all[..m]);
    CleanMeans(ms, script);
    if AnyContains(script, 0, ms.start) || AnyContains(script, 0, ms.end) {
      CutScript(script, m);
    } else {
      assert all[..m] == all;
      WholeScript(script);
    }
  }

  // ----- a header that holds the start marker

  /** What the parser takes as the script when the header holds the start mark. */
  function HeaderBody(ms: Marks, header: string): string { CutRest(ms, After(header, ms.start) + ms.start) }

  function HeaderItems(ms: Marks, header: string): seq<Item> { AddLines([], Lines(HeaderBody(ms, header))) }

  /** Text after an occurrence does not change the text in front of the first one. */
  lemma BeforeStops(h: string, pat: string, more: string)
    ensures Before(h + pat + more, pat) == Before(h + pat, pat)
  {
    var a := h + pat;
    FoundBy(h, pat);
    var j: nat := Find(a, pat, 0);
    TakeFirst(a, more, |a|);
    WholeText(a);
    FindInPrefix(a + more, pat, |a|);
    BeforeAt(a, pat, j);
    BeforeAt(a + more, pat, j);
    TakeFirst(a, more, j);
  }

  lemma FoundBy(h: string, pat: string)
    ensures 0 <= Find(h + pat, pat, 0) <= |h|
  {
    assert OccursAt(pat, pat, 0);
    OccursShift(h, pat, pat, |h|);
    FindFirst(h + pat, pat, 0);
  }

  /** The first start mark of the text is the first one of the header. */
  lemma FindInHeader(header: string, pat: string, more: string)
    requires Contains(header, pat)
    ensures var i := Find(header, pat, 0);
            0 <= i && i + |pat| <= |header| && Find(header + more, pat, 0) == i
  {
    var i := Find(header, pat, 0);
    var k :| OccursAt(header, pat, k);
    FindFirst(header, pat, 0);
    OccursWithin(header, more, pat, i);
    forall j | 0 <= j < i ensures !OccursAt(header + more, pat, j) {
      OccursWithin(header, more, pat, j);
    }
    FoundAt(header + more, pat, i);
  }

  lemma AfterInHeader(header: string, pat: string, more: string)
    requires Contains(header, pat)
    ensures After(header + pat + more, pat) == After(header, pat) + pat + more
  {
    FindInHeader(header, pat, pat + more);
    var i: nat := Find(header, pat, 0);
    SeqAssoc(header, pat, more);
    AfterAt(header, pat, i);
    AfterAt(header + pat + more, pat, i);
    AfterFirst(header, pat, more, i + |pat|);
  }

  lemma BodyInHeader(ms: Marks, header: string, more: string)
    requires Contains(header, ms.start)
    ensures Body(ms, header + ms.start + more) == HeaderBody(ms, header)
  {
    AfterInHeader(header, ms.start, more);
    BeforeStops(After(header, ms.start), ms.start, more);
  }

  /** Then the script has no part in what is read back. */
  lemma HeaderDecides(ms: Marks, header: string, script: seq<string>)
    requires Contains(header, ms.start)
    ensures Parsed(ms, Log(ms, header, script)) == HeaderItems(ms, header)
  {
    LogParts(ms, header, script);
    BodyInHeader(ms, header, "\n" + Printed(script, 0) + ms.end);
  }

  lemma AfterFirst(a: string, b: string, d: string, k: nat)
    requires k <= |a|
    ensures (a + b + d)[k..] == a[k..] + b + d
  {
  }

  lemma EnumeratedInjective(s1: seq<string>, s2: seq<string>)
    requires Enumerated(s1, 0) == Enumerated(s2, 0)
    ensures s1 == s2
  {
    EnumeratedShape(s1);
    EnumeratedShape(s2);
    forall j | 0 <= j < |s1| ensures s1[j] == s2[j] {
      assert Enumerated(s1, 0)[j] == Enumerated(s2, 0)[j];
    }
  }

  /** So at most one script survives such a header. */
  lemma AtMostOneScript(ms: Marks, header: string, s1: seq<string>, s2: seq<string>)
    requires Contains(header, ms.start)
    requires Parsed(ms, Log(ms, header, s1)) == Enumerated(s1, 0)
             && Parsed(ms, Log(ms, header, s2)) == Enumerated(s2, 0)
    ensures s1 == s2
  {
    HeaderDecides(ms, header, s1);
    HeaderDecides(ms, header, s2);
    EnumeratedInjective(s1, s2);
  }

  // ----- the printer's own header

  /** A field between text without a dash and a line feed: a marker lies in the field or after it. */
  lemma FieldMarker(a: string, field: string, tail: string, pat: string)
    requires IsMarker(pat) && '-' !in a && tail != "" && tail[0] == '\n'
    ensures Contains(a + (field + tail), pat) <==> Contains(field, pat) || Contains(tail, pat)
  {
    var t := a + (field + tail);
    if Contains(t, pat) {
      var i :| OccursAt(t, pat, i);
      OccursFirst(t, pat, i);
      DashBehind(a, field + tail, i);
      OccursShift(a, field + tail, pat, i);
      FieldOrTail(field, tail, pat, i - |a|);
    }
    if Contains(field, pat) {
      var i :| OccursAt(field, pat, i);
      OccursWithin(field, tail, pat, i);
      OccursShift(a, field + tail, pat, |a| + i);
    }
    if Contains(tail, pat) {
      var i :| OccursAt(tail, pat, i);
      OccursShift(field, tail, pat, |field| + i);
      OccursShift(a, field + tail, pat, |a| + (|field| + i));
    }
  }

  lemma DashBehind(a: string, b: string, i: nat)
    requires '-' !in a && i < |a + b| && (a + b)[i] == '-'
    ensures i >= |a|
  {
    forall k | 0 <= k < |a| ensures (a + b)[k] != '-' { assert (a + b)[k] == a[k]; }
  }

  lemma FieldOrTail(field: string, tail: string, pat: string, i: nat)
    requires IsMarker(pat) && tail != "" && tail[0] == '\n' && OccursAt(field + tail, pat, i)
    ensures OccursAt(field, pat, i) || OccursAt(tail, pat, i - |field|)
  {
    if i < |field| {
      assert (field + tail)[|field|] == '\n';
      MarkerInLine(field + tail, pat, i, |field|);
      OccursWithin(field, tail, pat, i);
    } else {
      OccursShift(field, tail, pat, i);
    }
  }

  lemma NoDashInNumber(n: nat)
    ensures '-' !in Decimal(n)
  {
    var d := Decimal(n);
    forall c | c in d ensures c != '-' {
      var k :| 0 <= k < |d| && d[k] == c;
      assert IsDigit(d[k]);
    }
  }

  lemma NoDashJoin(a: string, b: string)
    requires '-' !in a && '-' !in b
    ensures '-' !in a + b
  {
  }

  lemma NoDashInOpening(f: Failure)
    ensures '-' !in Opening(f)
  {
    var a := "\n=== STATEFUL FUZZ DIVERGENCE ===\nseed=";
    var b := a + Decimal(f.seed) + " case=";
    var d := b + Decimal(f.caseNo) + " stmt #";
    NoDashInNumber(f.seed);
    NoDashJoin(a, Decimal(f.seed));
    NoDashJoin(a + Decimal(f.seed), " case=");
    NoDashInNumber(f.caseNo);
    NoDashJoin(b, Decimal(f.caseNo));
    NoDashJoin(b + Decimal(f.caseNo), " stmt #");
    NoDashInNumber(f.index);
    NoDashJoin(d, Decimal(f.index));
    NoDashJoin(d + Decimal(f.index), ": ");
  }

  lemma NoMarkerInLineEnd(pat: string)
    requires IsMarker(pat)
    ensures !Contains("\n", pat)
  {
    if Contains("\n", pat) {
      var i :| OccursAt("\n", pat, i);
      OccursFirst("\n", pat, i);
    }
  }

  /** The header holds a marker exactly when the message or the failing statement does. */
  lemma HeaderMarker(f: Failure, pat: string)
    requires IsMarker(pat)
    ensures Contains(Header(f), pat) <==> Contains(f.msg, pat) || Contains(f.stmt, pat)
    ensures EndsLine(Header(f))
  {
    NoDashInOpening(f);
    NoMarkerInLineEnd(pat);
    FieldMarker("\n  SQL: ", f.stmt, "\n", pat);
    FieldMarker(Opening(f), f.msg, "\n  SQL: " + (f.stmt + "\n"), pat);
  }

  /** Round trip of the whole log. When neither the message nor the failing statement holds the start
      marker, the script comes back exactly when every statement is clean. Otherwise the header alone
      decides what comes back, whatever the script. */
  lemma RoundTrip(ms: Marks, f: Failure, script: seq<string>)
    requires MarksOk(ms)
    requires |script| <= TWO64
    ensures Parsed(ms, Log(ms, Header(f), script)) == Enumerated(script, 0)
       <==> if Contains(f.msg, ms.start) || Contains(f.stmt, ms.start)
            then HeaderItems(ms, Header(f)) == Enumerated(script, 0)
            else forall s :: s in script ==> Clean(ms, s)
  {
    HeaderMarker(f, ms.start);
    if Contains(Header(f), ms.start) {
      HeaderDecides(ms, Header(f), script);
    } else {
      PlainRoundTrip(ms, Header(f), script);
    }
  }

  lemma {:induction false} AllGoodMeans(script: seq<string>, from: nat)
    requires from <= |script|
    ensures AllGood(script, from) <==> forall j :: from <= j < |script| ==> GoodStatement(script[j])
    decreases |script| - from
  {
    if from == |script| {
    } else {
      AllGoodMeans(script, from + 1);
    }
  }

  lemma {:induction false} EnumeratedAt(script: seq<string>, from: nat, j: nat)
    requires from + j < |script|
    ensures j < |Enumerated(script, from)| && Enumerated(script, from)[j] == Item(from + j, script[from + j])
    decreases j
  {
    if j == 0 {
    } else {
      EnumeratedAt(script, from + 1, j - 1);
    }
  }

  lemma {:induction false} EnumeratedLength(script: seq<string>, from: nat)
    requires from <= |script|
    ensures |Enumerated(script, from)| == |script| - from
    decreases |script| - from
  {
    if from == |script| {
    } else {
      EnumeratedLength(script, from + 1);
    }
  }

  /** What comes back after a round trip: as many items as statements, each with its index and text. */
  lemma EnumeratedShape(script: seq<string>)
    ensures |Enumerated(script, 0)| == |script|
    ensures forall j :: 0 <= j < |script| ==> Enumerated(script, 0)[j] == Item(j, script[j])
  {
    EnumeratedLength(script, 0);
    forall j | 0 <= j < |script| ensures Enumerated(script, 0)[j] == Item(j, script[j]) {
      EnumeratedAt(script, 0, j);
    }
  }
}
