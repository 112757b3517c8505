/** What the parser of the failure log reads, said without the parser: the numbered lines of the text and
    what lies between them. With it the round trip of a whole log has its exact condition. */
module ScriptMeaning {
  import opened ScriptText
  import opened Words
  import opened ScriptLog

  // ----- the lines that count

  predicate Keeps(t: string) { t != "" && !StartsWith(t, "note:") }

  /** The lines without their leading white space, less empty ones and notes. */
  function KeptLines(lines: seq<string>): seq<string> {
    if lines == [] then []
    else
      var t := TrimStart(lines[|lines| - 1]);
      KeptLines(lines[..|lines| - 1]) + if Keeps(t) then [t] else []
  }

  /** Where the numbered lines are. */
  function Heads(ks: seq<string>): seq<nat> {
    if ks == [] then []
    else
      var n := |ks| - 1;
      Heads(ks[..n]) + if Numbered(ks[n]).Some? then [n] else []
  }

  ghost predicate Increasing(hs: seq<nat>, n: nat) {
    && (forall j :: 0 <= j < |hs| ==> hs[j] < n)
    && (forall i, j :: 0 <= i < j < |hs| ==> hs[i] < hs[j])
  }

  predicate IsHead(ks: seq<string>, k: nat) { k < |ks| && Numbered(ks[k]).Some? }

  lemma HeadStays(ks: seq<string>, n: nat, k: nat)
    requires k < n <= |ks|
    ensures IsHead(ks[..n], k) <==> IsHead(ks, k)
  {
    assert ks[..n][k] == ks[k];
  }

  lemma {:induction false} HeadsIncrease(ks: seq<string>)
    ensures Increasing(Heads(ks), |ks|)
  {
    if ks != [] {
      HeadsIncrease(ks[..|ks| - 1]);
    }
  }

  /** They are all the numbered lines. */
  lemma {:induction false} HeadsAre(ks: seq<string>, k: nat)
    ensures k in Heads(ks) <==> IsHead(ks, k)
  {
    if ks != [] {
      var n := |ks| - 1;
      HeadsAre(ks[..n], k);
      if k < n { HeadStays(ks, n, k); }
      HeadOrNot(Heads(ks[..n]), Heads(ks), n, IsHead(ks, n), k);
    }
  }

  lemma HeadOrNot(hs0: seq<nat>, hs: seq<nat>, n: nat, more: bool, k: nat)
    requires hs == hs0 + if more then [n] else []
    ensures k in hs <==> k in hs0 || (more && k == n)
  {
  }

  /** Where the lines of block j end: at the next numbered line, or with the text. */
  function BlockEnd(ks: seq<string>, j: nat): nat
    requires j < |Heads(ks)|
  {
    if j + 1 < |Heads(ks)| then Heads(ks)[j + 1] else |ks|
  }

  /** All the lines, each behind a line feed. */
  function Joined(ls: seq<string>): string {
    if ls == [] then "" else Joined(ls[..|ls| - 1]) + "\n" + ls[|ls| - 1]
  }

  /** The text of a numbered line behind its number. */
  function TextOf(t: string): string
    requires Numbered(t).Some?
  {
    t[Numbered(t).value.1..]
  }

  /** Numbered line h with the lines up to e. */
  function Span(ks: seq<string>, h: nat, e: nat): Item
    requires h < e <= |ks| && Numbered(ks[h]).Some?
  {
    Item(Numbered(ks[h]).value.0, TextOf(ks[h]) + Joined(ks[h + 1..e]))
  }

  lemma HeadIs(ks: seq<string>, j: nat)
    requires j < |Heads(ks)|
    ensures Heads(ks)[j] < BlockEnd(ks, j) <= |ks| && Numbered(ks[Heads(ks)[j]]).Some?
  {
    HeadsIncrease(ks);
    HeadsAre(ks, Heads(ks)[j]);
  }

  /** Numbered line number j with the lines up to the next one. */
  function Block(ks: seq<string>, j: nat): Item
    requires j < |Heads(ks)|
  {
    HeadIs(ks, j);
    Span(ks, Heads(ks)[j], BlockEnd(ks, j))
  }

  // ----- the parser reads the blocks

  lemma TrimTwice(s: string)
    ensures TrimStart(TrimStart(s)) == TrimStart(s)
  {
  }

  /** A line counts as it is without its leading white space, or not at all. */
  lemma AddKept(out: seq<Item>, ln: string)
    ensures AddLine(out, ln) == AddLines(out, KeptLines([ln]))
  {
    var t := TrimStart(ln);
    TrimTwice(ln);
    assert KeptLines([ln]) == if Keeps(t) then [t] else [];
    if Keeps(t) { AddOne(out, t, []); }
  }

  lemma {:induction false} OnlyKeptCount(out: seq<Item>, lines: seq<string>)
    ensures AddLines(out, lines) == AddLines(out, KeptLines(lines))
  {
    if lines == [] {
    } else {
      var n := |lines| - 1;
      OnlyKeptCount(out, lines[..n]);
      OneMoreLine(out, lines[..n], lines[n]);
      assert lines == lines[..n] + [lines[n]];
    }
  }

  lemma OneMoreLine(out: seq<Item>, lines: seq<string>, ln: string)
    requires AddLines(out, lines) == AddLines(out, KeptLines(lines))
    ensures AddLines(out, lines + [ln]) == AddLines(out, KeptLines(lines + [ln]))
  {
    var out1 := AddLines(out, lines);
    AddLast(out, lines, ln);
    AddKept(out1, ln);
    AddLinesConcat(out, KeptLines(lines), KeptLines([ln]));
    KeptNext(lines, ln);
  }

  lemma AddLast(out: seq<Item>, lines: seq<string>, ln: string)
    ensures AddLines(out, lines + [ln]) == AddLine(AddLines(out, lines), ln)
  {
    AddLinesConcat(out, lines, [ln]);
    AddOne(AddLines(out, lines), ln, []);
    assert [ln] + [] == [ln];
  }

  lemma KeptNext(lines: seq<string>, ln: string)
    ensures KeptLines(lines + [ln]) == KeptLines(lines) + KeptLines([ln])
  {
    assert (lines + [ln])[..|lines|] == lines;
  }

  lemma HeadsNext(ks: seq<string>, k: string)
    ensures Heads(ks + [k]) == Heads(ks) + if Numbered(k).Some? then [|ks|] else []
  {
    assert (ks + [k])[..|ks|] == ks;
  }

  lemma SpanStays(ks: seq<string>, k: string, h: nat, e: nat)
    requires h < e <= |ks| && Numbered(ks[h]).Some?
    ensures (ks + [k])[h] == ks[h] && Span(ks + [k], h, e) == Span(ks, h, e)
  {
    assert (ks + [k])[h + 1..e] == ks[h + 1..e];
  }

  lemma SpanGrows(ks: seq<string>, k: string, h: nat)
    requires h < |ks| && Numbered(ks[h]).Some?
    ensures (ks + [k])[h] == ks[h]
    ensures Span(ks + [k], h, |ks| + 1) == Item(Span(ks, h, |ks|).num, Span(ks, h, |ks|).text + "\n" + k)
  {
    var more := (ks + [k])[h + 1..|ks| + 1];
    assert more == ks[h + 1..|ks|] + [k];
    JoinedNext(ks[h + 1..|ks|], k);
    SeqAssoc(TextOf(ks[h]), Joined(ks[h + 1..|ks|]) + "\n", k);
    SeqAssoc(TextOf(ks[h]), Joined(ks[h + 1..|ks|]), "\n");
  }

  lemma JoinedNext(ls: seq<string>, k: string)
    ensures Joined(ls + [k]) == Joined(ls) + "\n" + k
  {
    assert (ls + [k])[..|ls|] == ls;
  }

  /** A further line leaves the blocks before the last one as they are. */
  lemma EarlierBlock(ks: seq<string>, k: string, j: nat)
    requires j < |Heads(ks)| && (j + 1 < |Heads(ks)| || Numbered(k).Some?)
    ensures j < |Heads(ks + [k])| && Block(ks + [k], j) == Block(ks, j)
  {
    HeadIs(ks, j);
    HeadsNext(ks, k);
    SpanStays(ks, k, Heads(ks)[j], BlockEnd(ks, j));
  }

  /** A line without number joins the last block. */
  lemma LastBlock(ks: seq<string>, k: string, j: nat)
    requires j + 1 == |Heads(ks)| && Numbered(k).None?
    ensures Heads(ks + [k]) == Heads(ks)
    ensures Block(ks + [k], j) == Item(Block(ks, j).num, Block(ks, j).text + "\n" + k)
  {
    HeadIs(ks, j);
    HeadsNext(ks, k);
    SpanGrows(ks, k, Heads(ks)[j]);
  }

  /** A numbered line starts a block. */
  lemma NewBlock(ks: seq<string>, k: string)
    requires Numbered(k).Some?
    ensures |Heads(ks + [k])| == |Heads(ks)| + 1
    ensures Block(ks + [k], |Heads(ks)|) == Item(Numbered(k).value.0, TextOf(k))
  {
    HeadsNext(ks, k);
    assert (ks + [k])[|ks| + 1..|ks| + 1] == [];
    assert TextOf(k) + "" == TextOf(k);
  }

  ghost predicate AreBlocks(ks: seq<string>, out: seq<Item>) {
    |out| == |Heads(ks)| && forall j :: 0 <= j < |out| ==> out[j] == Block(ks, j)
  }

  lemma NumberedNext(ks: seq<string>, k: string, out: seq<Item>)
    requires AreBlocks(ks, out) && Numbered(k).Some?
    ensures AreBlocks(ks + [k], out + [Item(Numbered(k).value.0, TextOf(k))])
  {
    NewBlock(ks, k);
    forall j | 0 <= j < |out| ensures j < |Heads(ks + [k])| && Block(ks + [k], j) == out[j] {
      EarlierBlock(ks, k, j);
    }
  }

  lemma PlainBlock(ks: seq<string>, k: string, out: seq<Item>, j: nat)
    requires AreBlocks(ks, out) && Numbered(k).None? && j < |out|
    ensures j < |Heads(ks + [k])| && Block(ks + [k], j) == Appended(out, "\n" + k)[j]
  {
    if j + 1 < |out| {
      EarlierBlock(ks, k, j);
    } else {
      LastBlock(ks, k, j);
      SeqAssoc(out[j].text, "\n", k);
    }
  }

  lemma PlainNext(ks: seq<string>, k: string, out: seq<Item>)
    requires AreBlocks(ks, out) && Numbered(k).None? && out != []
    ensures AreBlocks(ks + [k], Appended(out, "\n" + k))
  {
    HeadsNext(ks, k);
    forall j | 0 <= j < |out|
      ensures j < |Heads(ks + [k])| && Block(ks + [k], j) == Appended(out, "\n" + k)[j]
    {
      PlainBlock(ks, k, out, j);
    }
  }

  lemma AddIs(out: seq<Item>, k: string)
    requires Keeps(k) && TrimStart(k) == k
    ensures AddLine(out, k) == if Numbered(k).Some? then out + [Item(Numbered(k).value.0, TextOf(k))]
                               else if out == [] then [] else Appended(out, "\n" + k)
  {
    if out != [] { SeqAssoc(out[|out| - 1].text, "\n", k); }
  }

  lemma BlocksNext(ks: seq<string>, k: string, out: seq<Item>)
    requires AreBlocks(ks, out) && Keeps(k) && TrimStart(k) == k
    ensures AreBlocks(ks + [k], AddLine(out, k))
  {
    AddIs(out, k);
    if Numbered(k).Some? {
      NumberedNext(ks, k, out);
    } else if out != [] {
      PlainNext(ks, k, out);
    } else {
      HeadsNext(ks, k);
    }
  }

  ghost predicate AllKept(ks: seq<string>) {
    forall i :: 0 <= i < |ks| ==> Keeps(ks[i]) && TrimStart(ks[i]) == ks[i]
  }

  lemma {:induction false} KeptAre(lines: seq<string>)
    ensures AllKept(KeptLines(lines))
  {
    if lines == [] {
    } else {
      KeptAre(lines[..|lines| - 1]);
      TrimTwice(lines[|lines| - 1]);
    }
  }

  lemma {:induction false} KeptBlocks(ks: seq<string>)
    requires AllKept(ks)
    ensures AreBlocks(ks, AddLines([], ks))
  {
    if ks == [] {
    } else {
      var n := |ks| - 1;
      KeptBlocks(ks[..n]);
      assert ks == ks[..n] + [ks[n]];
      AddLast([], ks[..n], ks[n]);
      BlocksNext(ks[..n], ks[n], AddLines([], ks[..n]));
    }
  }

  /** For any text: what the parser reads are the blocks of its kept lines, one item for each numbered line. */
  lemma ReadsBlocks(text: string)
    ensures AreBlocks(KeptLines(Lines(text)), AddLines([], Lines(text)))
  {
    OnlyKeptCount([], Lines(text));
    KeptAre(Lines(text));
    KeptBlocks(KeptLines(Lines(text)));
  }

  // ----- text that reads as a script

  /** The numbered lines of the text carry 0, 1, 2 and so on, and each of them spells its statement,
      together with the lines up to the next. */
  ghost predicate Spells(text: string, script: seq<string>) {
    var ks := KeptLines(Lines(text));
    |Heads(ks)| == |script| && forall j :: 0 <= j < |script| ==> Block(ks, j) == Item(j, script[j])
  }

  lemma SpellsIff(text: string, script: seq<string>)
    ensures AddLines([], Lines(text)) == Enumerated(script, 0) <==> Spells(text, script)
  {
    var out := AddLines([], Lines(text));
    ReadsBlocks(text);
    EnumeratedShape(script);
    if Spells(text, script) {
      forall j | 0 <= j < |script| ensures out[j] == Enumerated(script, 0)[j] {}
    }
    if out == Enumerated(script, 0) {
      forall j | 0 <= j < |script| ensures Block(KeptLines(Lines(text)), j) == Item(j, script[j]) {
        assert out[j] == Enumerated(script, 0)[j];
      }
    }
  }

  // ----- what message and failing statement hold

  /** The text behind the first start mark of the message or else of the failing statement, as far as the
      next mark. */
  ghost function Quoted(ms: Marks, f: Failure): string {
    CutRest(ms, if Contains(f.msg, ms.start)
            then After(f.msg, ms.start) + ("\n  SQL: " + (f.stmt + "\n"))
            else After(f.stmt, ms.start) + "\n")
  }

  /** The first occurrence lies in b. */
  lemma AfterBehind(a: string, b: string, pat: string)
    requires Contains(b, pat) && forall i :: 0 <= i < |a| ==> !OccursAt(a + b, pat, i)
    ensures After(a + b, pat) == After(b, pat)
  {
    FindInHeader(b, pat, "");
    var r: nat := Find(b, pat, 0);
    FindBehind(a, b, pat, r);
    AfterAt(b, pat, r);
    AfterAt(a + b, pat, |a| + r);
    DropFirst(a, b, r + |pat|);
  }

  lemma DropFirst(a: string, b: string, k: nat)
    requires k <= |b|
    ensures (a + b)[|a| + k..] == b[k..]
  {
  }

  lemma FindBehind(a: string, b: string, pat: string, r: nat)
    requires Find(b, pat, 0) == r && forall i :: 0 <= i < |a| ==> !OccursAt(a + b, pat, i)
    ensures Find(a + b, pat, 0) == |a| + r
  {
    FindFirst(b, pat, 0);
    OccursShift(a, b, pat, |a| + r);
    forall i | 0 <= i < |a| + r ensures !OccursAt(a + b, pat, i) {
      if i >= |a| { OccursShift(a, b, pat, i); }
    }
    FoundAt(a + b, pat, |a| + r);
  }

  /** It lies in a. */
  lemma AfterWithin(a: string, b: string, pat: string)
    requires Contains(a, pat)
    ensures After(a + b, pat) == After(a, pat) + b
  {
    FindInHeader(a, pat, b);
    var i: nat := Find(a, pat, 0);
    AfterAt(a, pat, i);
    AfterAt(a + b, pat, i);
    assert (a + b)[i + |pat|..] == a[i + |pat|..] + b;
  }

  lemma NotBeforeDash(a: string, b: string, pat: string)
    requires IsMarker(pat) && '-' !in a
    ensures forall i :: 0 <= i < |a| ==> !OccursAt(a + b, pat, i)
  {
    forall i | 0 <= i < |a| ensures !OccursAt(a + b, pat, i) {
      assert (a + b)[i] == a[i];
      if OccursAt(a + b, pat, i) { OccursFirst(a + b, pat, i); }
    }
  }

  lemma NotInField(field: string, tail: string, pat: string)
    requires IsMarker(pat) && tail != "" && tail[0] == '\n' && !Contains(field, pat)
    ensures forall i :: 0 <= i < |field| ==> !OccursAt(field + tail, pat, i)
  {
    forall i | 0 <= i < |field| ensures !OccursAt(field + tail, pat, i) {
      if OccursAt(field + tail, pat, i) {
        FieldOrTail(field, tail, pat, i);
      }
    }
  }

  lemma AfterField(a: string, field: string, tail: string, pat: string)
    requires IsMarker(pat) && '-' !in a && tail != "" && tail[0] == '\n'
    requires Contains(field, pat) || Contains(tail, pat)
    ensures After(a + (field + tail), pat)
         == if Contains(field, pat) then After(field, pat) + tail else After(tail, pat)
  {
    FieldMarker("", field, tail, pat);
    assert "" + (field + tail) == field + tail;
    NotBeforeDash(a, field + tail, pat);
    AfterBehind(a, field + tail, pat);
    if Contains(field, pat) {
      AfterWithin(field, tail, pat);
    } else {
      NotInField(field, tail, pat);
      AfterBehind(field, tail, pat);
    }
  }

  lemma AfterHeader(f: Failure, pat: string)
    requires IsMarker(pat) && (Contains(f.msg, pat) || Contains(f.stmt, pat))
    ensures After(Header(f), pat)
         == if Contains(f.msg, pat) then After(f.msg, pat) + ("\n  SQL: " + (f.stmt + "\n"))
            else After(f.stmt, pat) + "\n"
  {
    NoDashInOpening(f);
    NoMarkerInLineEnd(pat);
    FieldMarker("\n  SQL: ", f.stmt, "\n", pat);
    AfterField(Opening(f), f.msg, "\n  SQL: " + (f.stmt + "\n"), pat);
    if !Contains(f.msg, pat) {
      AfterField("\n  SQL: ", f.stmt, "\n", pat);
    }
  }

  /** A start mark behind a line end cuts nothing that was not cut before. */
  lemma CutAtMark(ms: Marks, a: string)
    requires MarksOk(ms) && EndsLine(a)
    ensures CutRest(ms, a + ms.start) == CutRest(ms, a)
  {
    assert a + ms.start + "" == a + ms.start;
    if Contains(a, ms.start) {
      FindInHeader(a, ms.start, ms.start);
      var i: nat := Find(a, ms.start, 0);
      BeforeAt(a, ms.start, i);
      BeforeAt(a + ms.start, ms.start, i);
      TakeFirst(a, ms.start, i);
    } else {
      FindStart(ms, a, "");
      BeforeAt(a + ms.start, ms.start, |a|);
      TakeFirst(a, ms.start, |a|);
      WholeText(a);
      FindFirst(a, ms.start, 0);
    }
  }

  lemma AfterEndsLine(a: string, pat: string, line: string)
    requires EndsLine(line) && line != ""
    ensures EndsLine(After(a, pat) + line)
  {
  }

  lemma HeaderQuotes(ms: Marks, f: Failure)
    requires MarksOk(ms) && (Contains(f.msg, ms.start) || Contains(f.stmt, ms.start))
    ensures HeaderBody(ms, Header(f)) == Quoted(ms, f)
  {
    AfterHeader(f, ms.start);
    var sql := "\n  SQL: " + (f.stmt + "\n");
    assert sql[|sql| - 1] == '\n';
    AfterEndsLine(f.msg, ms.start, sql);
    AfterEndsLine(f.stmt, ms.start, "\n");
    CutAtMark(ms, After(Header(f), ms.start));
  }

  // ----- the round trip of the whole log

  lemma Join(a: string, b: string, d: string, e: string)
    ensures a + (b + (d + e)) == a + b + d + e
  {
  }

  /** The text that the fuzzer prints for a failure. */
  function LogText(f: Failure, script: seq<string>): string {
    "\n=== STATEFUL FUZZ DIVERGENCE ===\nseed=" + Decimal(f.seed) + " case=" + Decimal(f.caseNo)
    + " stmt #" + Decimal(f.index) + ": " + f.msg + "\n  SQL: " + f.stmt
    + "\n--- script ---\n" + Printed(script, 0) + "--- end script ---"
  }

  lemma LogIs(f: Failure, script: seq<string>)
    ensures Log(MARKS, Header(f), script) == LogText(f, script)
  {
    Join(Opening(f), f.msg, "\n  SQL: ", f.stmt + "\n");
    var b := Opening(f) + f.msg + "\n  SQL: ";
    assert b + (f.stmt + "\n") == (b + f.stmt) + "\n";
    assert ((b + f.stmt) + "\n") + "--- script ---" + "\n" == (b + f.stmt) + "\n--- script ---\n";
  }

  /** Parsing a printed log gives back the script exactly in these cases: if neither the message nor the
      failing statement holds the start mark, when every statement is clean; otherwise, when the text they
      hold behind that mark spells the same script. */
  lemma RoundTripIff(f: Failure, script: seq<string>)
    requires |script| <= TWO64
    ensures Parsed(MARKS, LogText(f, script)) == Enumerated(script, 0)
       <==> if Contains(f.msg, "--- script ---") || Contains(f.stmt, "--- script ---")
            then Spells(Quoted(MARKS, f), script)
            else forall s :: s in script ==> Clean(Marks("--- script ---", "--- end script ---"), s)
  {
    MarksAreOk();
    LogIs(f, script);
    RoundTrip(MARKS, f, script);
    if Contains(f.msg, MARKS.start) || Contains(f.stmt, MARKS.start) {
      HeaderQuotes(MARKS, f);
      SpellsIff(Quoted(MARKS, f), script);
    }
  }

  /** Text without the start mark holds no script. */
  lemma NoMarkNoScript(text: string)
    requires !Contains(text, "--- script ---")
    ensures Parsed(MARKS, text) == []
  {
    FindFirst(text, MARKS.start, 0);
    assert After(text, MARKS.start) == "";
    assert Find("", MARKS.start, 0) == -1 && Find("", MARKS.end, 0) == -1;
  }

  ghost predicate Survives(f: Failure, script: seq<string>) {
    Parsed(MARKS, Log(MARKS, Header(f), script)) == Enumerated(script, 0)
  }

  /** The numbered lines carry 0, 1, 2 and so on. */
  ghost predicate CountsUp(ks: seq<string>) {
    forall j :: 0 <= j < |Heads(ks)| ==> Block(ks, j).num == j
  }

  /** With the start mark in one of them there is a script that comes back exactly when the numbered lines
      of that text count up from 0. */
  lemma SurvivorIff(f: Failure)
    requires Contains(f.msg, MARKS.start) || Contains(f.stmt, MARKS.start)
    ensures (exists script :: Survives(f, script)) <==> CountsUp(KeptLines(Lines(Quoted(MARKS, f))))
  {
    if script :| Survives(f, script) {
      SurvivesIff(f, script);
    }
    var ks := KeptLines(Lines(Quoted(MARKS, f)));
    if CountsUp(ks) {
      var script := seq(|Heads(ks)|, j requires 0 <= j < |Heads(ks)| => Block(ks, j).text);
      SurvivesIff(f, script);
    }
  }

  lemma SurvivesIff(f: Failure, script: seq<string>)
    requires Contains(f.msg, MARKS.start) || Contains(f.stmt, MARKS.start)
    ensures Survives(f, script) <==> Spells(Quoted(MARKS, f), script)
  {
    MarksAreOk();
    HeaderMarker(f, MARKS.start);
    HeaderQuotes(MARKS, f);
    HeaderDecides(MARKS, Header(f), script);
    SpellsIff(Quoted(MARKS, f), script);
  }
}
