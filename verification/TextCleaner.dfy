/** The document cleaner: a chain of rewrites over extracted text, then a check that something
    meaningful is left. Proved: cleaning lands in a normal form on which cleaning again changes
    nothing, and it keeps exactly the words of the text it was given. */
module TextCleaner {
  import opened JsText
  import opened Outcomes

  datatype CleanError = NoExtractableText | NoMeaningfulText

  // ---- The rewrites ----

  /** [\x00-\x08\x0B\x0C\x0E-\x1F\x7F] */
  predicate IsControl(c: CodeUnit) {
    c <= 8 || c == 0x0B || c == 0x0C || 0x0E <= c <= 0x1F || c == 0x7F
  }

  /** [\u200B-\u200D\uFEFF] */
  predicate IsZeroWidth(c: CodeUnit) {
    0x200B <= c <= 0x200D || c == 0xFEFF
  }

  predicate IsBlank(c: CodeUnit) {
    c == SP || c == TAB
  }

  function Remove(s: Text, doomed: CodeUnit -> bool): Text {
    if s == [] then []
    else if doomed(s[0]) then Remove(s[1..], doomed)
    else [s[0]] + Remove(s[1..], doomed)
  }

  function Replace(s: Text, from: CodeUnit, to: CodeUnit): Text {
    if s == [] then [] else [if s[0] == from then to else s[0]] + Replace(s[1..], from, to)
  }

  /** Each CR LF pair becomes one LF. */
  function FoldCrLf(s: Text): Text {
    if s == [] then []
    else if |s| > 1 && s[0] == CR && s[1] == LF then [LF] + FoldCrLf(s[2..])
    else [s[0]] + FoldCrLf(s[1..])
  }

  /** Each run of spaces and tabs becomes one space. */
  function FoldBlanks(s: Text): Text {
    if s == [] then []
    else if |s| > 1 && IsBlank(s[0]) && IsBlank(s[1]) then FoldBlanks(s[1..])
    else [if IsBlank(s[0]) then SP else s[0]] + FoldBlanks(s[1..])
  }

  /** Each run of three or more LF becomes two. */
  function FoldNewlines(s: Text): Text {
    if s == [] then []
    else if |s| > 2 && s[0] == LF && s[1] == LF && s[2] == LF then FoldNewlines(s[1..])
    else [s[0]] + FoldNewlines(s[1..])
  }

  /** The length of the text up to its first LF. */
  function LineEnd(s: Text): (p: nat)
    ensures p <= |s| && (p < |s| ==> s[p] == LF)
    ensures LF !in s[..p]
  {
    if s == [] || s[0] == LF then 0
    else
      var p := 1 + LineEnd(s[1..]);
      assert s[..p] == [s[0]] + s[1..][..p - 1];
      p
  }

  function SplitLines(s: Text): (lines: seq<Text>)
    ensures lines != []
  {
    var p := LineEnd(s);
    if p == |s| then [s] else [s[..p]] + SplitLines(s[p + 1..])
  }

  function JoinLines(lines: seq<Text>): Text
    requires lines != []
  {
    if |lines| == 1 then lines[0] else lines[0] + [LF] + JoinLines(lines[1..])
  }

  function CleanLine(line: Text): Text {
    Trim(FoldBlanks(line))
  }

  function CleanEach(lines: seq<Text>): (r: seq<Text>)
    ensures |r| == |lines|
  {
    if lines == [] then [] else [CleanLine(lines[0])] + CleanEach(lines[1..])
  }

  function CleanLines(s: Text): Text {
    JoinLines(CleanEach(SplitLines(s)))
  }

  /** The rewrites that act on single characters and line endings. */
  function Flatten(raw: Text): Text {
    var printable := Remove(raw, IsControl);
    var newlines := Replace(FoldCrLf(printable), CR, LF);
    Replace(Remove(newlines, IsZeroWidth), NBSP, SP)
  }

  /** All rewrites, in the order the source applies them. */
  function Rewrite(raw: Text): Text {
    Trim(FoldNewlines(CleanLines(Flatten(raw))))
  }

  /** cleanText. The final test for a letter or digit is a parameter: the results hold whatever
      texts it accepts. */
  function CleanText(raw: Text, meaningful: Text -> bool): Result<Text, CleanError> {
    if raw == [] then Err(NoExtractableText)
    else
      var cleaned := Rewrite(raw);
      if cleaned == [] || !meaningful(cleaned) then Err(NoMeaningfulText) else Ok(cleaned)
  }

  // ---- The normal form ----

  /** Characters no cleaned text holds. */
  predicate IsBanned(c: CodeUnit) {
    IsControl(c) || IsZeroWidth(c) || c == CR || c == NBSP || c == TAB
  }

  /** What may stand side by side: no two spaces, and no whitespace beside a line break other than
      another line break. */
  predicate MayMeet(a: CodeUnit, b: CodeUnit) {
    && !(a == SP && b == SP)
    && (a == LF && IsSpace(b) ==> b == LF)
    && (b == LF && IsSpace(a) ==> a == LF)
  }

  ghost predicate Spaced(s: Text) {
    forall i | 0 <= i < |s| - 1 :: MayMeet(s[i], s[i + 1])
  }

  ghost predicate NoBanned(s: Text) {
    forall i | 0 <= i < |s| :: !IsBanned(s[i])
  }

  /** The ends of a text are either not whitespace or line breaks. */
  predicate EndsOk(s: Text) {
    s != [] ==> (IsSpace(s[0]) ==> s[0] == LF) && (IsSpace(s[|s| - 1]) ==> s[|s| - 1] == LF)
  }

  ghost predicate NoTripleBreak(s: Text) {
    forall i | 0 <= i < |s| - 2 :: !(s[i] == LF && s[i + 1] == LF && s[i + 2] == LF)
  }

  ghost predicate NormalForm(s: Text) {
    NoBanned(s) && Spaced(s) && NoTripleBreak(s) && Trimmed(s)
  }

  // ---- Reaching the normal form ----

  lemma {:induction false} RemoveDrops(s: Text, doomed: CodeUnit -> bool)
    ensures forall c | c in Remove(s, doomed) :: c in s && !doomed(c)
  {
    if s == [] {
    } else {
      RemoveDrops(s[1..], doomed);
    }
  }

  lemma {:induction false} ReplaceDrops(s: Text, from: CodeUnit, to: CodeUnit)
    requires from != to
    ensures forall c | c in Replace(s, from, to) :: c != from && (c in s || c == to)
  {
    if s == [] {
    } else {
      ReplaceDrops(s[1..], from, to);
    }
  }

  lemma {:induction false} FoldCrLfKeeps(s: Text)
    ensures forall c | c in FoldCrLf(s) :: c in s
  {
    if |s| > 1 && s[0] == CR && s[1] == LF {
      FoldCrLfKeeps(s[2..]);
    } else if s != [] {
      FoldCrLfKeeps(s[1..]);
    }
  }

  lemma FlattenDrops(raw: Text)
    ensures forall c | c in Flatten(raw) :: !IsControl(c) && !IsZeroWidth(c) && c != CR && c != NBSP
  {
    var printable := Remove(raw, IsControl);
    var newlines := Replace(FoldCrLf(printable), CR, LF);
    RemoveDrops(raw, IsControl);
    FoldCrLfKeeps(printable);
    ReplaceDrops(FoldCrLf(printable), CR, LF);
    RemoveDrops(newlines, IsZeroWidth);
    ReplaceDrops(Remove(newlines, IsZeroWidth), NBSP, SP);
  }

  lemma {:induction false} FoldBlanksShape(s: Text)
    ensures forall c | c in FoldBlanks(s) :: c != TAB && (c in s || c == SP)
    ensures forall i | 0 <= i < |FoldBlanks(s)| - 1 :: !(FoldBlanks(s)[i] == SP && FoldBlanks(s)[i + 1] == SP)
    ensures s != [] ==> FoldBlanks(s) != [] && FoldBlanks(s)[0] == if IsBlank(s[0]) then SP else s[0]
  {
    if s == [] {
    } else {
      FoldBlanksShape(s[1..]);
    }
  }

  /** A cleaned line: no tab, no line break, no double space, no outer whitespace. */
  lemma CleanLineShape(line: Text)
    requires LF !in line
    requires forall c | c in line :: IsBanned(c) ==> c == TAB
    ensures NoBanned(CleanLine(line)) && Spaced(CleanLine(line)) && Trimmed(CleanLine(line))
    ensures LF !in CleanLine(line)
  {
    FoldBlanksShape(line);
    var folded := FoldBlanks(line);
    var i, j := TrimWindow(folded);
    forall k | 0 <= k < j - i ensures folded[i..j][k] in folded {
      assert folded[i..j][k] == folded[i + k];
    }
  }

  /** One line at a time. */
  lemma {:induction false} CleanLinesUnroll(s: Text)
    ensures LineEnd(s) == |s| ==> CleanLines(s) == CleanLine(s)
    ensures LineEnd(s) < |s| ==>
              CleanLines(s) == CleanLine(s[..LineEnd(s)]) + [LF] + CleanLines(s[LineEnd(s) + 1..])
  {
    var p := LineEnd(s);
    if p < |s| {
      var rest := SplitLines(s[p + 1..]);
      assert SplitLines(s)[1..] == rest;
      assert CleanEach(SplitLines(s)) == [CleanLine(s[..p])] + CleanEach(rest);
      assert CleanEach(SplitLines(s))[1..] == CleanEach(rest);
    } else {
      assert CleanEach([s]) == [CleanLine(s)];
    }
  }

  lemma {:induction false} CleanLinesShape(s: Text)
    requires forall c | c in s :: IsBanned(c) ==> c == TAB
    ensures NoBanned(CleanLines(s)) && Spaced(CleanLines(s)) && EndsOk(CleanLines(s))
    decreases |s|
  {
    CleanLinesUnroll(s);
    var p := LineEnd(s);
    if p == |s| {
      assert s[..p] == s;
      CleanLineShape(s);
    } else {
      CleanLineShape(s[..p]);
      CleanLinesShape(s[p + 1..]);
      JoinShape(CleanLine(s[..p]), CleanLines(s[p + 1..]));
    }
  }

  lemma JoinShape(line: Text, rest: Text)
    requires NoBanned(line) && Spaced(line) && Trimmed(line)
    requires NoBanned(rest) && Spaced(rest) && EndsOk(rest)
    ensures var s := line + [LF] + rest; NoBanned(s) && Spaced(s) && EndsOk(s)
  {
    var s := line + [LF] + rest;
    forall i | 0 <= i < |s| - 1 ensures MayMeet(s[i], s[i + 1]) {
      if i > |line| {
        assert s[i] == rest[i - |line| - 1] && s[i + 1] == rest[i - |line|];
      }
    }
  }

  lemma SpacedTail(s: Text)
    requires NoBanned(s) && Spaced(s) && s != []
    ensures NoBanned(s[1..]) && Spaced(s[1..])
  {
    var rest := s[1..];
    forall i | 0 <= i < |rest| - 1 ensures MayMeet(rest[i], rest[i + 1]) {
      assert MayMeet(s[i + 1], s[i + 2]);
    }
  }

  lemma {:induction false} FoldNewlinesEnds(s: Text)
    requires s != []
    ensures FoldNewlines(s) != [] && FoldNewlines(s)[0] == s[0]
    ensures FoldNewlines(s)[|FoldNewlines(s)| - 1] == s[|s| - 1]
    ensures |s| > 1 && (|s| == 2 || !(s[0] == LF && s[1] == LF && s[2] == LF)) ==>
              |FoldNewlines(s)| > 1 && FoldNewlines(s)[1] == s[1]
  {
    if |s| > 1 {
      FoldNewlinesEnds(s[1..]);
    }
  }

  lemma {:induction false} FoldNewlinesShape(s: Text)
    requires NoBanned(s) && Spaced(s)
    ensures var t := FoldNewlines(s); NoBanned(t) && Spaced(t) && NoTripleBreak(t)
  {
    if |s| > 1 {
      SpacedTail(s);
      FoldNewlinesShape(s[1..]);
      FoldNewlinesEnds(s[1..]);
      assert MayMeet(s[0], s[1]);
    }
  }

  lemma SpacedSlice(s: Text, lo: nat, hi: nat)
    requires Spaced(s) && NoBanned(s) && lo <= hi <= |s|
    ensures Spaced(s[lo..hi]) && NoBanned(s[lo..hi])
  {
    forall i | 0 <= i < hi - lo - 1 ensures MayMeet(s[lo..hi][i], s[lo..hi][i + 1]) {
      assert MayMeet(s[lo + i], s[lo + i + 1]);
    }
  }

  lemma NoTripleSlice(s: Text, lo: nat, hi: nat)
    requires NoTripleBreak(s) && lo <= hi <= |s|
    ensures NoTripleBreak(s[lo..hi])
  {
    var r := s[lo..hi];
    forall k | 0 <= k < |r| - 2 ensures !(r[k] == LF && r[k + 1] == LF && r[k + 2] == LF) {
      assert !(s[lo + k] == LF && s[lo + k + 1] == LF && s[lo + k + 2] == LF);
    }
  }

  /** What cleaning produces is in normal form. */
  lemma CleanedIsNormal(raw: Text)
    ensures NormalForm(Rewrite(raw))
  {
    var flat := Flatten(raw);
    FlattenDrops(raw);
    CleanLinesShape(flat);
    FoldNewlinesShape(CleanLines(flat));
    if CleanLines(flat) != [] {
      FoldNewlinesEnds(CleanLines(flat));
    }
    var t := FoldNewlines(CleanLines(flat));
    var i, j := TrimWindow(t);
    SpacedSlice(t, i, j);
    NoTripleSlice(t, i, j);
  }

  // ---- Nothing changes a text in normal form ----

  lemma {:induction false} RemoveNothing(s: Text, doomed: CodeUnit -> bool)
    requires forall i | 0 <= i < |s| :: !doomed(s[i])
    ensures Remove(s, doomed) == s
  {
    if s == [] {
    } else {
      RemoveNothing(s[1..], doomed);
    }
  }

  lemma {:induction false} ReplaceNothing(s: Text, from: CodeUnit, to: CodeUnit)
    requires from !in s
    ensures Replace(s, from, to) == s
  {
    if s == [] {
    } else {
      ReplaceNothing(s[1..], from, to);
    }
  }

  lemma {:induction false} FoldCrLfNothing(s: Text)
    requires CR !in s
    ensures FoldCrLf(s) == s
  {
    if s == [] {
    } else {
      FoldCrLfNothing(s[1..]);
    }
  }

  lemma FlattenNothing(s: Text)
    requires NoBanned(s)
    ensures Flatten(s) == s
  {
    RemoveNothing(s, IsControl);
    FoldCrLfNothing(s);
    ReplaceNothing(s, CR, LF);
    RemoveNothing(s, IsZeroWidth);
    ReplaceNothing(s, NBSP, SP);
  }

  lemma {:induction false} FoldBlanksNothing(s: Text)
    requires NoBanned(s) && Spaced(s)
    ensures FoldBlanks(s) == s
  {
    if s == [] {
    } else {
      var rest := s[1..];
      assert |s| > 1 ==> MayMeet(s[0], s[1]);
      forall i | 0 <= i < |rest| - 1 ensures MayMeet(rest[i], rest[i + 1]) {
        assert MayMeet(s[i + 1], s[i + 2]);
      }
      FoldBlanksNothing(rest);
    }
  }

  lemma {:induction false} FoldNewlinesNothing(s: Text)
    requires NoTripleBreak(s)
    ensures FoldNewlines(s) == s
  {
    if s == [] {
    } else {
      var rest := s[1..];
      assert |s| > 2 ==> !(s[0] == LF && s[0 + 1] == LF && s[0 + 2] == LF);
      forall i | 0 <= i < |rest| - 2 ensures !(rest[i] == LF && rest[i + 1] == LF && rest[i + 2] == LF) {
        assert !(s[i + 1] == LF && s[i + 1 + 1] == LF && s[i + 1 + 2] == LF);
      }
      FoldNewlinesNothing(rest);
    }
  }

  lemma FirstLineNothing(s: Text, p: nat)
    requires NoBanned(s) && Spaced(s) && EndsOk(s)
    requires p <= |s| && LF !in s[..p] && (p < |s| ==> s[p] == LF)
    ensures CleanLine(s[..p]) == s[..p]
  {
    SpacedSlice(s, 0, p);
    assert s[..p] == s[0..p];
    FoldBlanksNothing(s[..p]);
    if 0 < p {
      assert s[0] in s[..p] && s[p - 1] in s[..p];
      if p < |s| {
        assert MayMeet(s[p - 1], s[p - 1 + 1]);
      }
      TrimFixpoint(s[..p]);
    }
  }

  lemma RestOk(s: Text, p: nat)
    requires NoBanned(s) && Spaced(s) && EndsOk(s)
    requires p < |s| && s[p] == LF
    ensures NoBanned(s[p + 1..]) && Spaced(s[p + 1..]) && EndsOk(s[p + 1..])
  {
    SpacedSlice(s, p + 1, |s|);
    assert s[p + 1..|s|] == s[p + 1..];
    assert p + 1 < |s| ==> MayMeet(s[p], s[p + 1]);
  }

  lemma {:induction false} CleanLinesNothing(s: Text)
    requires NoBanned(s) && Spaced(s) && EndsOk(s)
    ensures CleanLines(s) == s
    decreases |s|
  {
    hide CleanLines, CleanLine, NoBanned, Spaced, EndsOk, LineEnd;
    var p := LineEnd(s);
    CleanLinesUnroll(s);
    FirstLineNothing(s, p);
    if p < |s| {
      RestOk(s, p);
      CleanLinesNothing(s[p + 1..]);
      assert s == s[..p] + [LF] + s[p + 1..];
    } else {
      assert s[..p] == s;
    }
  }

  lemma NormalIsFixed(s: Text)
    requires NormalForm(s)
    ensures Rewrite(s) == s
  {
    FlattenNothing(s);
    CleanLinesNothing(s);
    FoldNewlinesNothing(s);
    TrimFixpoint(s);
  }

  /** Cleaning is idempotent: a cleaned text is accepted again and comes back unchanged. */
  lemma CleanTwice(raw: Text, meaningful: Text -> bool)
    requires CleanText(raw, meaningful).Ok?
    ensures CleanText(CleanText(raw, meaningful).value, meaningful) == CleanText(raw, meaningful)
    ensures NormalForm(CleanText(raw, meaningful).value)
  {
    CleanedIsNormal(raw);
    NormalIsFixed(Rewrite(raw));
  }

  /** A text is its own cleaning exactly when it is in normal form. */
  lemma FixedIffNormal(s: Text)
    ensures Rewrite(s) == s <==> NormalForm(s)
  {
    CleanedIsNormal(s);
    if NormalForm(s) {
      NormalIsFixed(s);
    }
  }

  // ---- Words are kept ----

  /** The characters the cleaner deletes outright: below 32 but for tab and line endings, DEL, the three
      zero-width characters and the byte-order mark. */
  predicate IsDeleted(c: CodeUnit) {
    || (c < 32 && c != 9 && c != 10 && c != 13) || c == 127
    || c == 0x200B || c == 0x200C || c == 0x200D || c == 0xFEFF
  }

  lemma {:induction false} RemoveTwice(s: Text)
    ensures Remove(Remove(s, IsControl), IsZeroWidth) == Remove(s, IsDeleted)
  {
    if s == [] {
    } else {
      RemoveTwice(s[1..]);
    }
  }

  lemma {:induction false} FoldCrLfKeepsWords(r: Reader, s: Text)
    ensures Feed(r, Remove(FoldCrLf(s), IsZeroWidth)) == Feed(r, Remove(s, IsZeroWidth))
    decreases |s|
  {
    if |s| > 1 && s[0] == CR && s[1] == LF {
      var rest := s[2..];
      assert s[1..][1..] == rest;
      assert Remove(s, IsZeroWidth) == [CR] + ([LF] + Remove(rest, IsZeroWidth));
      assert (FoldCrLf(s))[1..] == FoldCrLf(rest);
      assert Put(Put(r, CR), LF) == Put(r, LF);
      FeedConcat(r, [CR], [LF] + Remove(rest, IsZeroWidth));
      FeedConcat(Put(r, CR), [LF], Remove(rest, IsZeroWidth));
      FeedConcat(r, [LF], Remove(FoldCrLf(rest), IsZeroWidth));
      FoldCrLfKeepsWords(Put(r, LF), rest);
    } else if s != [] {
      var t := FoldCrLf(s);
      assert t[1..] == FoldCrLf(s[1..]);
      if IsZeroWidth(s[0]) {
        FoldCrLfKeepsWords(r, s[1..]);
      } else {
        FeedConcat(r, [s[0]], Remove(FoldCrLf(s[1..]), IsZeroWidth));
        FeedConcat(r, [s[0]], Remove(s[1..], IsZeroWidth));
        FoldCrLfKeepsWords(Put(r, s[0]), s[1..]);
      }
    }
  }

  /** Turning one whitespace character into another, with the deletion still to come. */
  lemma {:induction false} ReplaceKeepsWords(r: Reader, s: Text, from: CodeUnit, to: CodeUnit, doomed: CodeUnit -> bool)
    requires IsSpace(from) && IsSpace(to) && !doomed(from) && !doomed(to)
    ensures Feed(r, Remove(Replace(s, from, to), doomed)) == Feed(r, Remove(s, doomed))
    decreases |s|
  {
    hide Feed;
    if s == [] {
    } else {
      var c := if s[0] == from then to else s[0];
      var rest := Replace(s[1..], from, to);
      assert Replace(s, from, to)[1..] == rest;
      if doomed(s[0]) {
        ReplaceKeepsWords(r, s[1..], from, to, doomed);
      } else {
        FeedCons(r, c, Remove(rest, doomed));
        FeedCons(r, s[0], Remove(s[1..], doomed));
        ReplaceKeepsWords(Put(r, s[0]), s[1..], from, to, doomed);
      }
    }
  }

  lemma FlattenKeepsWords(r: Reader, raw: Text)
    ensures Feed(r, Flatten(raw)) == Feed(r, Remove(raw, IsDeleted))
  {
    var printable := Remove(raw, IsControl);
    var newlines := Replace(FoldCrLf(printable), CR, LF);
    var visible := Remove(newlines, IsZeroWidth);
    var none := (c: CodeUnit) => false;
    ReplaceKeepsWords(r, visible, NBSP, SP, none);
    RemoveNothing(visible, none);
    RemoveNothing(Replace(visible, NBSP, SP), none);
    ReplaceKeepsWords(r, FoldCrLf(printable), CR, LF, IsZeroWidth);
    FoldCrLfKeepsWords(r, printable);
    RemoveTwice(raw);
  }

  lemma {:induction false} FoldBlanksKeepsWords(r: Reader, s: Text)
    ensures Feed(r, FoldBlanks(s)) == Feed(r, s)
    decreases |s|
  {
    if |s| > 1 && IsBlank(s[0]) && IsBlank(s[1]) {
      FoldBlanksKeepsWords(r, s[1..]);
      assert Put(Put(r, s[0]), s[1]) == Put(r, s[1]);
    } else if s != [] {
      FoldBlanksKeepsWords(Put(r, s[0]), s[1..]);
      assert FoldBlanks(s)[1..] == FoldBlanks(s[1..]);
    }
  }

  lemma {:induction false} FoldNewlinesKeepsWords(r: Reader, s: Text)
    ensures Feed(r, FoldNewlines(s)) == Feed(r, s)
    decreases |s|
  {
    if |s| > 2 && s[0] == LF && s[1] == LF && s[2] == LF {
      FoldNewlinesKeepsWords(r, s[1..]);
      assert Put(Put(r, LF), LF) == Put(r, LF);
    } else if s != [] {
      FoldNewlinesKeepsWords(Put(r, s[0]), s[1..]);
      assert FoldNewlines(s)[1..] == FoldNewlines(s[1..]);
    }
  }

  /** A cleaned line, read from between words, shows the same words up to the next break. */
  lemma CleanLineKeepsWords(r: Reader, line: Text)
    requires r.word == []
    ensures Flush(Feed(r, CleanLine(line))) == Flush(Feed(r, line))
  {
    TrimKeepsWords(r, FoldBlanks(line));
    FoldBlanksKeepsWords(r, line);
  }

  lemma {:induction false} CleanLinesKeepWords(r: Reader, s: Text)
    requires r.word == []
    ensures Flush(Feed(r, CleanLines(s))) == Flush(Feed(r, s))
    decreases |s|
  {
    hide CleanLine, CleanLines;
    CleanLinesUnroll(s);
    var p := LineEnd(s);
    var line := s[..p];
    CleanLineKeepsWords(r, line);
    if p == |s| {
      assert line == s;
    } else {
      var rest := s[p + 1..];
      assert s == line + [LF] + rest;
      FeedBreak(r, line, LF, rest);
      FeedBreak(r, CleanLine(line), LF, CleanLines(rest));
      CleanLinesKeepWords(Flush(Feed(r, line)), rest);
    }
  }

  /** Cleaning keeps content: the words of the output are the words of the input with only the
      control, zero-width and byte-order-mark characters deleted. */
  lemma CleanKeepsWords(raw: Text)
    ensures Words(Rewrite(raw)) == Words(Remove(raw, IsDeleted))
  {
    var r := Reader([], []);
    var lines := CleanLines(Flatten(raw));
    TrimKeepsWords(r, FoldNewlines(lines));
    FoldNewlinesKeepsWords(r, lines);
    CleanLinesKeepWords(r, Flatten(raw));
    FlattenKeepsWords(r, raw);
  }

  /** A text cleans when it has words left and what is left is meaningful. */
  predicate Cleans(raw: Text, meaningful: Text -> bool) {
    Words(Remove(raw, IsDeleted)) != [] && meaningful(Rewrite(raw))
  }

  /** When cleanText fails and with which error. */
  lemma CleanTextOutcome(raw: Text, meaningful: Text -> bool)
    ensures CleanText(raw, meaningful).Ok? <==> Cleans(raw, meaningful)
    ensures Cleans(raw, meaningful) ==>
              var cleaned := CleanText(raw, meaningful).value;
              && Words(cleaned) == Words(Remove(raw, IsDeleted)) && NormalForm(cleaned) && meaningful(cleaned)
    ensures CleanText(raw, meaningful) == Err(NoExtractableText) <==> raw == []
    ensures CleanText(raw, meaningful) == Err(NoMeaningfulText) <==> raw != [] && !Cleans(raw, meaningful)
  {
    hide Rewrite, Words, Trim;
    CleanKeepsWords(raw);
    CleanedIsNormal(raw);
    NoWordsIff(Rewrite(raw));
    TrimFixpoint(Rewrite(raw));
    RemoveFromNothing();
  }

  lemma RemoveFromNothing()
    ensures Words(Remove([], IsDeleted)) == []
  {
  }

  // ---- Pages ----

  datatype Page = Page(number: int, text: Text)

  /** The pages whose text cleans, with that text, in order. */
  function KeptPages(pages: seq<Page>, meaningful: Text -> bool): seq<Page> {
    if pages == [] then []
    else
      var last := pages[|pages| - 1];
      KeptPages(pages[..|pages| - 1], meaningful) +
      match CleanText(last.text, meaningful)
        case Ok(text) => [Page(last.number, text)]
        case Err(_) => []
  }

  /** cleanPages: pages that do not clean are skipped. */
  method CleanPages(pages: seq<Page>, meaningful: Text -> bool) returns (cleaned: seq<Page>)
    ensures cleaned == KeptPages(pages, meaningful)
    ensures forall p | p in cleaned :: p.text != [] && NormalForm(p.text) && meaningful(p.text)
  {
    cleaned := [];
    for i := 0 to |pages|
      invariant cleaned == KeptPages(pages[..i], meaningful)
      invariant forall p | p in cleaned :: p.text != [] && NormalForm(p.text) && meaningful(p.text)
    {
      assert pages[..i + 1][..i] == pages[..i];
      match CleanText(pages[i].text, meaningful) {
        case Ok(text) =>
          CleanedIsNormal(pages[i].text);
          cleaned := cleaned + [Page(pages[i].number, text)];
        case Err(_) =>
      }
    }
    assert pages[..|pages|] == pages;
  }

  /** Cleaning pages a second time changes nothing. */
  lemma {:induction false} CleanPagesTwice(pages: seq<Page>, meaningful: Text -> bool)
    ensures KeptPages(KeptPages(pages, meaningful), meaningful) == KeptPages(pages, meaningful)
  {
    if pages == [] {
    } else {
      var last := pages[|pages| - 1];
      var before := KeptPages(pages[..|pages| - 1], meaningful);
      CleanPagesTwice(pages[..|pages| - 1], meaningful);
      if CleanText(last.text, meaningful).Ok? {
        CleanTwice(last.text, meaningful);
        var kept := KeptPages(pages, meaningful);
        assert kept[..|kept| - 1] == before;
      } else {
        assert KeptPages(pages, meaningful) == before;
      }
    }
  }
}
