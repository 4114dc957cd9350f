/** Which line breaks cleaning keeps: between two neighbouring words as many as the input has there, up
    to two. A CR, an LF and a CR LF pair are one break each. */
module LineBreaks {
  import opened JsText
  import opened TextCleaner

  // ---- Counting breaks between words ----

  /** A count part of the way through a text: the breaks between the words so far, whether there was a
      word, whether one is being read, and the breaks since. */
  datatype Count = Count(gaps: seq<nat>, started: bool, inWord: bool, breaks: nat)

  const START := Count([], false, false, 0)

  function Cross(g: Count, c: CodeUnit): Count {
    if !IsSpace(c) then
      if g.inWord then g else Count(if g.started then g.gaps + [g.breaks] else g.gaps, true, true, 0)
    else g.(inWord := false, breaks := if c == LF && g.started then g.breaks + 1 else g.breaks)
  }

  function Run(g: Count, s: Text): Count
    decreases |s|
  {
    if s == [] then g else Run(Cross(g, s[0]), s[1..])
  }

  /** For each two neighbouring words the number of LF between them. */
  function Breaks(s: Text): seq<nat> {
    Run(START, s).gaps
  }

  /** The same count over unclean text: deleted characters are as if they were not there, a CR is a
      break, and an LF right after a CR is part of it. A zero-width character parts them. */
  function Read(g: Count, afterCr: bool, s: Text): Count
    decreases |s|
  {
    if s == [] then g
    else if 0x200B <= s[0] <= 0x200D || s[0] == 0xFEFF then Read(g, false, s[1..])
    else if IsDeleted(s[0]) then Read(g, afterCr, s[1..])
    else if s[0] == LF && afterCr then Read(g, false, s[1..])
    else Read(Cross(g, if s[0] == CR then LF else s[0]), s[0] == CR, s[1..])
  }

  function RawBreaks(raw: Text): seq<nat> {
    Read(START, false, raw).gaps
  }

  function AtMostTwo(n: nat): nat {
    if n > 2 then 2 else n
  }

  function Capped(gaps: seq<nat>): (r: seq<nat>)
    ensures |r| == |gaps| && forall i | 0 <= i < |gaps| :: r[i] == AtMostTwo(gaps[i])
  {
    seq(|gaps|, i requires 0 <= i < |gaps| => AtMostTwo(gaps[i]))
  }

  // ---- Feeding the count ----

  lemma {:induction false} RunConcat(g: Count, a: Text, b: Text)
    ensures Run(g, a + b) == Run(Run(g, a), b)
    decreases |a|
  {
    if a == [] {
      assert a + b == b;
    } else {
      assert (a + b)[1..] == a[1..] + b;
      RunConcat(Cross(g, a[0]), a[1..], b);
    }
  }

  lemma RunCons(g: Count, c: CodeUnit, rest: Text)
    ensures Run(g, [c] + rest) == Run(Cross(g, c), rest)
  {
    assert ([c] + rest)[1..] == rest;
  }

  // ---- Characters and line endings ----

  /** The count over printable text whose CR LF pairs are folded. */
  function Visible(g: Count, s: Text): Count
    decreases |s|
  {
    if s == [] then g
    else if IsZeroWidth(s[0]) then Visible(g, s[1..])
    else Visible(Cross(g, if s[0] == CR then LF else s[0]), s[1..])
  }

  lemma {:induction false} VisibleIsRun(g: Count, s: Text)
    ensures Run(g, Replace(Remove(Replace(s, CR, LF), IsZeroWidth), NBSP, SP)) == Visible(g, s)
    decreases |s|
  {
    if s == [] {
    } else {
      var rest := Replace(s[1..], CR, LF);
      var c := if s[0] == CR then LF else s[0];
      assert Replace(s, CR, LF) == [c] + rest && Replace(s, CR, LF)[1..] == rest;
      if IsZeroWidth(c) {
        VisibleIsRun(g, s[1..]);
      } else {
        var kept := Remove(rest, IsZeroWidth);
        var d := if c == NBSP then SP else c;
        assert ([c] + kept)[1..] == kept;
        assert Replace([c] + kept, NBSP, SP) == [d] + Replace(kept, NBSP, SP);
        RunCons(g, d, Replace(kept, NBSP, SP));
        assert Cross(g, d) == Cross(g, c);
        VisibleIsRun(Cross(g, c), s[1..]);
      }
    }
  }

  /** The count over printable text. */
  function Printable(g: Count, afterCr: bool, s: Text): Count
    decreases |s|
  {
    if s == [] then g
    else if IsZeroWidth(s[0]) then Printable(g, false, s[1..])
    else if s[0] == LF && afterCr then Printable(g, false, s[1..])
    else Printable(Cross(g, if s[0] == CR then LF else s[0]), s[0] == CR, s[1..])
  }

  lemma {:induction false} PrintableIsRead(g: Count, afterCr: bool, raw: Text)
    ensures Printable(g, afterCr, Remove(raw, IsControl)) == Read(g, afterCr, raw)
    decreases |raw|
  {
    hide Cross;
    if raw == [] {
    } else {
      var rest := Remove(raw[1..], IsControl);
      assert ([raw[0]] + rest)[1..] == rest;
      if IsControl(raw[0]) {
        PrintableIsRead(g, afterCr, raw[1..]);
      } else if IsZeroWidth(raw[0]) || (raw[0] == LF && afterCr) {
        PrintableIsRead(g, false, raw[1..]);
      } else {
        PrintableIsRead(Cross(g, if raw[0] == CR then LF else raw[0]), raw[0] == CR, raw[1..]);
      }
    }
  }

  lemma {:induction false} FoldedIsPrintable(g: Count, s: Text)
    ensures Visible(g, FoldCrLf(s)) == Printable(g, false, s)
    decreases |s|
  {
    hide Cross;
    if s == [] {
    } else if |s| > 1 && s[0] == CR && s[1] == LF {
      var rest := FoldCrLf(s[2..]);
      assert ([LF] + rest)[1..] == rest && s[1..][1..] == s[2..];
      FoldedIsPrintable(Cross(g, LF), s[2..]);
    } else {
      var rest := FoldCrLf(s[1..]);
      assert ([s[0]] + rest)[1..] == rest;
      if IsZeroWidth(s[0]) {
        FoldedIsPrintable(g, s[1..]);
      } else {
        FoldedIsPrintable(Cross(g, if s[0] == CR then LF else s[0]), s[1..]);
      }
    }
  }

  lemma FlattenedBreaks(raw: Text)
    ensures Run(START, Flatten(raw)) == Read(START, false, raw)
  {
    var printable := Remove(raw, IsControl);
    VisibleIsRun(START, FoldCrLf(printable));
    FoldedIsPrintable(START, printable);
    PrintableIsRead(START, false, raw);
  }

  // ---- Lines ----

  function Rest(g: Count): Count {
    g.(inWord := false)
  }

  /** Whitespace within a line only ends the word. */
  lemma {:induction false} RunBlanks(g: Count, s: Text)
    requires forall c | c in s :: IsSpace(c) && c != LF
    ensures Run(g, s) == if s == [] then g else Rest(g)
    decreases |s|
  {
    if s == [] {
    } else {
      RunBlanks(Cross(g, s[0]), s[1..]);
    }
  }

  lemma {:induction false} RunFoldBlanks(g: Count, s: Text)
    ensures Run(g, FoldBlanks(s)) == Run(g, s)
    decreases |s|
  {
    if |s| > 1 && IsBlank(s[0]) && IsBlank(s[1]) {
      RunFoldBlanks(g, s[1..]);
      assert Cross(Cross(g, s[0]), s[1]) == Cross(g, s[1]);
      assert s[1..][0] == s[1];
    } else if s != [] {
      var c := if IsBlank(s[0]) then SP else s[0];
      RunCons(g, c, FoldBlanks(s[1..]));
      RunFoldBlanks(Cross(g, s[0]), s[1..]);
      assert Cross(g, c) == Cross(g, s[0]);
    }
  }

  lemma FoldBlanksAddsNoBreak(s: Text)
    requires LF !in s
    ensures LF !in FoldBlanks(s)
  {
    FoldBlanksShape(s);
  }

  lemma RunCleanLine(g: Count, line: Text)
    requires !g.inWord && LF !in line
    ensures Rest(Run(g, CleanLine(line))) == Rest(Run(g, line))
  {
    hide FoldBlanks, Trim;
    RunFoldBlanks(g, line);
    FoldBlanksAddsNoBreak(line);
    var s := FoldBlanks(line);
    var i, j := TrimWindow(s);
    assert s == s[..i] + s[i..j] + s[j..];
    RunConcat(g, s[..i] + s[i..j], s[j..]);
    RunConcat(g, s[..i], s[i..j]);
    RunBlanks(g, s[..i]);
    RunBlanks(Run(g, s[i..j]), s[j..]);
  }

  lemma RunBreak(g: Count, before: Text, rest: Text)
    ensures Run(g, before + [LF] + rest) == Run(Cross(Rest(Run(g, before)), LF), rest)
  {
    assert before + [LF] + rest == before + ([LF] + rest);
    RunConcat(g, before, [LF] + rest);
    RunCons(Run(g, before), LF, rest);
  }

  lemma {:induction false} RunCleanLines(g: Count, s: Text)
    requires !g.inWord
    ensures Rest(Run(g, CleanLines(s))) == Rest(Run(g, s))
    decreases |s|
  {
    hide CleanLines, CleanLine, Run;
    CleanLinesUnroll(s);
    var p := LineEnd(s);
    var line := s[..p];
    RunCleanLine(g, line);
    if p == |s| {
      assert line == s;
    } else {
      var rest := s[p + 1..];
      assert s == line + [LF] + rest;
      RunBreak(g, line, rest);
      RunBreak(g, CleanLine(line), CleanLines(rest));
      RunCleanLines(Cross(Rest(Run(g, line)), LF), rest);
    }
  }

  // ---- At most two ----

  /** The counts agree up to two breaks. */
  ghost predicate Alike(a: Count, b: Count) {
    && Capped(a.gaps) == Capped(b.gaps) && a.started == b.started && a.inWord == b.inWord
    && AtMostTwo(a.breaks) == AtMostTwo(b.breaks)
  }

  lemma CrossAlike(a: Count, b: Count, c: CodeUnit)
    requires Alike(a, b)
    ensures Alike(Cross(a, c), Cross(b, c))
  {
    if !IsSpace(c) && !a.inWord && a.started {
      assert Capped(a.gaps + [a.breaks]) == Capped(a.gaps) + [AtMostTwo(a.breaks)];
      assert Capped(b.gaps + [b.breaks]) == Capped(b.gaps) + [AtMostTwo(b.breaks)];
    }
  }

  /** Dropping the first of three breaks cannot be told when only two count. */
  lemma {:induction false} RunFoldNewlines(a: Count, b: Count, s: Text)
    requires Alike(a, b)
    ensures Alike(Run(a, FoldNewlines(s)), Run(b, s))
    decreases |s|
  {
    hide Cross, Alike;
    if s == [] {
    } else if |s| > 2 && s[0] == LF && s[1] == LF && s[2] == LF {
      var rest := s[3..];
      assert s == [LF] + ([LF] + ([LF] + rest)) && s[1..] == [LF] + ([LF] + rest);
      RunCons(b, LF, [LF] + ([LF] + rest));
      RunTwoBreaks(Cross(b, LF), rest);
      RunTwoBreaks(b, rest);
      RunFoldNewlines(a, b, s[1..]);
      CappedTwice(b, rest);
      AlikeTwice(Run(a, FoldNewlines(s)), Run(b, s[1..]), Run(b, s));
    } else {
      RunCons(a, s[0], FoldNewlines(s[1..]));
      CrossAlike(a, b, s[0]);
      RunFoldNewlines(Cross(a, s[0]), Cross(b, s[0]), s[1..]);
    }
  }

  lemma RunTwoBreaks(g: Count, rest: Text)
    ensures Run(g, [LF] + ([LF] + rest)) == Run(Cross(Cross(g, LF), LF), rest)
  {
    RunCons(g, LF, [LF] + rest);
    RunCons(Cross(g, LF), LF, rest);
  }

  lemma DroppedBreak(b: Count)
    ensures Alike(Cross(Cross(b, LF), LF), Cross(Cross(Cross(b, LF), LF), LF))
  {
  }

  lemma AlikeTwice(a: Count, b: Count, c: Count)
    requires Alike(a, b) && Alike(b, c)
    ensures Alike(a, c)
  {
  }

  lemma {:induction false} RunAlike(a: Count, b: Count, s: Text)
    requires Alike(a, b)
    ensures Alike(Run(a, s), Run(b, s))
    decreases |s|
  {
    hide Cross, Alike;
    if s == [] {
    } else {
      CrossAlike(a, b, s[0]);
      RunAlike(Cross(a, s[0]), Cross(b, s[0]), s[1..]);
    }
  }

  lemma CappedTwice(b: Count, rest: Text)
    ensures Alike(Run(Cross(Cross(b, LF), LF), rest), Run(Cross(Cross(Cross(b, LF), LF), LF), rest))
  {
    DroppedBreak(b);
    RunAlike(Cross(Cross(b, LF), LF), Cross(Cross(Cross(b, LF), LF), LF), rest);
  }

  // ---- The ends ----

  /** Before the first word nothing is counted. */
  lemma {:induction false} RunLeading(s: Text)
    requires forall c | c in s :: IsSpace(c)
    ensures Run(START, s) == START
    decreases |s|
  {
    if s == [] {
    } else {
      RunLeading(s[1..]);
    }
  }

  /** After the last word nothing is recorded. */
  lemma {:induction false} RunTrailing(g: Count, s: Text)
    requires forall c | c in s :: IsSpace(c)
    ensures Run(g, s).gaps == g.gaps
    decreases |s|
  {
    if s == [] {
    } else {
      RunTrailing(Cross(g, s[0]), s[1..]);
    }
  }

  lemma TrimKeepsBreaks(s: Text)
    ensures Breaks(Trim(s)) == Breaks(s)
  {
    hide Trim;
    var i, j := TrimWindow(s);
    assert s == s[..i] + s[i..j] + s[j..];
    RunConcat(START, s[..i] + s[i..j], s[j..]);
    RunConcat(START, s[..i], s[i..j]);
    RunLeading(s[..i]);
    RunTrailing(Run(START, s[i..j]), s[j..]);
  }

  // ---- A text in normal form has no more than two ----

  /** The breaks counted since the last word are the last characters read. */
  ghost predicate JustRead(g: Count, s: Text) {
    && g.breaks <= |s| && (forall i | |s| - g.breaks <= i < |s| :: s[i] == LF)
    && (forall n | n in g.gaps :: n <= 2) && (g.inWord ==> g.breaks == 0)
  }

  lemma {:induction false} NormalBreaks(s: Text, n: nat)
    requires NormalForm(s) && n <= |s|
    ensures JustRead(Run(START, s[..n]), s[..n])
  {
    if n == 0 {
    } else {
      NormalBreaks(s, n - 1);
      var g := Run(START, s[..n - 1]);
      assert s[..n] == s[..n - 1] + [s[n - 1]];
      RunConcat(START, s[..n - 1], [s[n - 1]]);
      RunCons(g, s[n - 1], []);
      BreaksTogether(s, n - 1, g);
    }
  }

  lemma BreaksTogether(s: Text, n: nat, g: Count)
    requires NormalForm(s) && n < |s| && JustRead(g, s[..n])
    ensures JustRead(Cross(g, s[n]), s[..n] + [s[n]])
  {
    if n >= 3 {
      var i := n - 3;
      assert !(s[i] == LF && s[i + 1] == LF && s[i + 2] == LF);
      assert !(s[..n][n - 3] == LF && s[..n][n - 2] == LF && s[..n][n - 1] == LF);
    }
    assert g.breaks <= 2;
    if g.breaks > 0 {
      assert s[..n][n - 1] == LF;
      var i := n - 1;
      assert MayMeet(s[i], s[i + 1]);
    }
    var t := s[..n] + [s[n]];
    forall i | |t| - Cross(g, s[n]).breaks <= i < |t| ensures t[i] == LF {
      assert i < n ==> t[i] == s[..n][i];
    }
  }

  /** Cleaned text has between each two neighbouring words as many line breaks as the input has between
      them, but never more than two. */
  lemma CleaningKeepsBreaks(raw: Text)
    ensures Breaks(Rewrite(raw)) == Capped(RawBreaks(raw))
  {
    hide Rewrite, NormalForm, Cross, Flatten, CleanLines, FoldNewlines, Trim, Run, Read;
    var flat := Flatten(raw);
    var lines := CleanLines(flat);
    var folded := FoldNewlines(lines);
    RewriteIs(raw);
    FlattenedBreaks(raw);
    RunCleanLines(START, flat);
    RunFoldNewlines(START, START, lines);
    TrimKeepsBreaks(folded);
    CleanedIsNormal(raw);
    var cleaned := Rewrite(raw);
    NormalBreaks(cleaned, |cleaned|);
    assert cleaned[..|cleaned|] == cleaned;
    NothingToCap(Breaks(cleaned));
  }

  lemma NothingToCap(gaps: seq<nat>)
    requires forall n | n in gaps :: n <= 2
    ensures Capped(gaps) == gaps
  {
    assert forall i | 0 <= i < |gaps| :: gaps[i] in gaps;
  }

  lemma RewriteIs(raw: Text)
    ensures Rewrite(raw) == Trim(FoldNewlines(CleanLines(Flatten(raw))))
  {
  }

  // ---- Words ----

  /** The reader and the count have seen the same words. */
  ghost predicate InStep(r: Reader, g: Count) {
    && (g.inWord <==> r.word != []) && (g.started <==> r.done != [] || r.word != [])
    && (g.started ==> |g.gaps| + 1 == |r.done| + if r.word != [] then 1 else 0)
    && (!g.started ==> g.gaps == [])
  }

  lemma {:induction false} FeedInStep(r: Reader, g: Count, s: Text)
    requires InStep(r, g)
    ensures InStep(Feed(r, s), Run(g, s))
    decreases |s|
  {
    if s == [] {
    } else {
      FeedInStep(Put(r, s[0]), Cross(g, s[0]), s[1..]);
    }
  }

  /** One count for each two neighbouring words. */
  lemma OneGapFewer(s: Text)
    ensures |Breaks(s)| == if Words(s) == [] then 0 else |Words(s)| - 1
  {
    FeedInStep(Reader([], []), START, s);
  }
}
