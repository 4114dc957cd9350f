/** The chunker: splits text into overlapping windows of words. Proved: the windows lose no word
    and waste none, their number is exact, indices run 0, 1, 2, ... across pages, and the recorded
    token counts respect the configured size exactly when that size is at least 2. */
module Chunker {
  import opened JsText
  import opened Outcomes
  import opened TextCleaner

  datatype ConfigError = InvalidChunkSize | InvalidChunkOverlap | OverlapNotBelowSize

  /** Sizes in estimated tokens; any numbers, not only integers, pass through the source. */
  datatype Config = Config(chunkSize: real, chunkOverlap: real) {
    predicate Valid() {
      0.0 <= chunkOverlap < chunkSize
    }

    function WordsPerChunk(): (w: nat)
      ensures w >= 1
    {
      var w := (chunkSize * 0.75).Floor;
      if w < 1 then 1 else w
    }

    function WordsOverlap(): nat {
      var w := (chunkOverlap * 0.75).Floor;
      if w < 0 then 0 else w
    }

    function StepSize(): (step: nat)
      ensures step >= 1
    {
      var step := WordsPerChunk() - WordsOverlap();
      if step < 1 then 1 else step
    }

    /** How many leading words a window shares with the window before it. */
    function Shared(): nat
      requires Valid()
    {
      StepWithinWindow(this);
      WordsPerChunk() - StepSize()
    }
  }

  /** The constructor's validation, in the order of its checks. */
  function MakeConfig(chunkSize: real, chunkOverlap: real): (r: Result<Config, ConfigError>)
    ensures r.Ok? <==> Config(chunkSize, chunkOverlap).Valid()
    ensures r.Ok? ==> r.value == Config(chunkSize, chunkOverlap)
    ensures r == Err(InvalidChunkSize) <==> chunkSize <= 0.0
    ensures r == Err(OverlapNotBelowSize) <==> 0.0 < chunkSize <= chunkOverlap
  {
    if chunkSize <= 0.0 then Err(InvalidChunkSize)
    else if chunkOverlap < 0.0 then Err(InvalidChunkOverlap)
    else if chunkSize <= chunkOverlap then Err(OverlapNotBelowSize)
    else Ok(Config(chunkSize, chunkOverlap))
  }

  /** A window always reaches its successor: no word falls between two windows. */
  lemma StepWithinWindow(cfg: Config)
    requires cfg.Valid()
    ensures cfg.StepSize() <= cfg.WordsPerChunk()
    ensures cfg.WordsOverlap() < cfg.WordsPerChunk() ==>
              cfg.WordsPerChunk() - cfg.StepSize() == cfg.WordsOverlap()
  {
  }

  /** What the sizes mean: a window takes three words for four tokens, rounded down but at least one, and
      shares with the next three words for four tokens of overlap, rounded down, but not the whole window. */
  lemma SizesInTokens(cfg: Config)
    requires cfg.Valid()
    ensures var w := cfg.WordsPerChunk(); w == 1 || w as real <= cfg.chunkSize * 0.75
    ensures cfg.chunkSize * 0.75 - 1.0 < cfg.WordsPerChunk() as real
    ensures cfg.Shared() as real <= cfg.chunkOverlap * 0.75 && cfg.Shared() < cfg.WordsPerChunk()
    ensures cfg.Shared() + 1 == cfg.WordsPerChunk() || cfg.chunkOverlap * 0.75 - 1.0 < cfg.Shared() as real
  {
  }

  datatype Chunk = Chunk(content: Text, index: int, page: int, tokenCount: nat, wordCount: nat, characterCount: nat)

  /** estimateTokens: 1.3 tokens a word, rounded up. */
  function EstimateTokens(text: Text): nat {
    if text == [] then 0
    else
      var t := (13 * |Words(text)| + 9) / 10;
      if t < 1 then 1 else t
  }

  function MakeChunk(words: seq<Text>, index: int, page: int): Chunk {
    var content := JoinWords(words);
    Chunk(content, index, if page == 0 then 1 else page, EstimateTokens(content), |words|, |content|)
  }

  /** The windows of `size` words from word `from` on, one every `step` words. */
  function Windows(words: seq<Text>, from: nat, size: nat, step: nat): (ws: seq<seq<Text>>)
    requires from <= |words| && 1 <= step <= size
    ensures ws != []
    decreases |words| - from
  {
    if from + size >= |words| then [words[from..]]
    else [words[from..from + size]] + Windows(words, from + step, size, step)
  }

  function Numbered(windows: seq<seq<Text>>, page: int, start: int): (chunks: seq<Chunk>)
    ensures |chunks| == |windows|
  {
    seq(|windows|, i requires 0 <= i < |windows| => MakeChunk(windows[i], start + i, page))
  }

  /** The chunks of a text, numbered from `start`. */
  function Chunks(text: Text, page: int, start: int, cfg: Config): seq<Chunk>
    requires cfg.Valid()
  {
    StepWithinWindow(cfg);
    if Words(text) == [] then []
    else Numbered(Windows(Words(text), 0, cfg.WordsPerChunk(), cfg.StepSize()), page, start)
  }

  // ---- The loops ----

  lemma TrimLosesNoWords(text: Text)
    ensures Words(Trim(text)) == Words(text)
  {
    TrimKeepsWords(Reader([], []), text);
  }

  lemma NumberedSnoc(windows: seq<seq<Text>>, window: seq<Text>, page: int, start: int)
    ensures Numbered(windows + [window], page, start)
         == Numbered(windows, page, start) + [MakeChunk(window, start + |windows|, page)]
  {
    hide MakeChunk;
  }

  lemma NumberedNothing(page: int, start: int)
    ensures Numbered([], page, start) == []
  {
  }

  /** The sliding-window loop of chunkText. */
  method SlideWindow(words: seq<Text>, page: int, start: int, size: nat, step: nat) returns (chunks: seq<Chunk>)
    requires words != [] && 1 <= step <= size
    ensures chunks == Numbered(Windows(words, 0, size, step), page, start)
  {
    hide MakeChunk, Numbered;
    var currentIndex := start;
    chunks := [];
    ghost var done: seq<seq<Text>> := [];
    NumberedNothing(page, start);
    var i := 0;
    while i < |words|
      invariant 0 <= i < |words|
      invariant Windows(words, 0, size, step) == done + Windows(words, i, size, step)
      invariant currentIndex == start + |done|
      invariant chunks == Numbered(done, page, start)
    {
      var window := words[i..if i + size <= |words| then i + size else |words|];
      chunks := chunks + [MakeChunk(window, currentIndex, page)];
      NumberedSnoc(done, window, page, start);
      currentIndex := currentIndex + 1;
      done := done + [window];
      if i + size >= |words| {
        assert window == words[i..];
        break;
      }
      i := i + step;
    }
  }

  /** chunkText. */
  method ChunkText(text: Text, page: int, start: int, cfg: Config) returns (chunks: seq<Chunk>)
    requires cfg.Valid()
    ensures chunks == Chunks(text, page, start, cfg)
  {
    TrimLosesNoWords(text);
    StepWithinWindow(cfg);
    var trimmed := Trim(text);
    if text == [] || trimmed == [] {
      return [];
    }
    var words := Words(trimmed);
    if words == [] {
      return [];
    }
    var size, step := cfg.WordsPerChunk(), cfg.StepSize();
    if |words| <= size {
      return [MakeChunk(words, start, page)];
    }
    chunks := SlideWindow(words, page, start, size, step);
  }

  /** The chunks of all pages in page order, numbered from 0. */
  function PageChunks(pages: seq<Page>, cfg: Config): seq<Chunk>
    requires cfg.Valid()
  {
    if pages == [] then []
    else
      var before := PageChunks(pages[..|pages| - 1], cfg);
      var last := pages[|pages| - 1];
      before + Chunks(last.text, last.number, |before|, cfg)
  }

  /** A document's chunks: by page when the pages give any, from the whole text otherwise. */
  function DocumentChunks(text: Text, pages: seq<Page>, cfg: Config): seq<Chunk>
    requires cfg.Valid()
  {
    var byPage := PageChunks(pages, cfg);
    if byPage != [] then byPage else Chunks(text, 1, 0, cfg)
  }

  lemma BlankHasNoChunks(text: Text, page: int, start: int, cfg: Config)
    requires cfg.Valid()
    requires text == [] || Trim(text) == []
    ensures Chunks(text, page, start, cfg) == []
  {
    TrimLosesNoWords(text);
  }

  /** The inner loop of chunkDocument: appends a page's chunks under fresh global indices. */
  method AppendRenumbered(all: seq<Chunk>, pageChunks: seq<Chunk>, globalIndex: int) returns (r: seq<Chunk>, next: int)
    requires forall c | 0 <= c < |pageChunks| :: pageChunks[c].index == globalIndex + c
    ensures r == all + pageChunks && next == globalIndex + |pageChunks|
  {
    r, next := all, globalIndex;
    for c := 0 to |pageChunks|
      invariant r == all + pageChunks[..c]
      invariant next == globalIndex + c
    {
      r := r + [pageChunks[c].(index := next)];
      next := next + 1;
    }
  }

  /** chunkDocument. */
  method ChunkDocument(text: Text, pages: seq<Page>, cfg: Config) returns (chunks: seq<Chunk>)
    requires cfg.Valid()
    ensures chunks == DocumentChunks(text, pages, cfg)
  {
    hide Chunks, Words, Trim;
    if pages != [] {
      var all: seq<Chunk> := [];
      var globalIndex := 0;
      for p := 0 to |pages|
        invariant all == PageChunks(pages[..p], cfg)
        invariant globalIndex == |all|
      {
        var page := pages[p];
        PageChunksStep(pages, p, cfg);
        if page.text == [] || Trim(page.text) == [] {
          BlankHasNoChunks(page.text, page.number, globalIndex, cfg);
          continue;
        }
        var pageChunks := ChunkText(page.text, page.number, globalIndex, cfg);
        ChunksNumbered(page.text, page.number, globalIndex, cfg);
        all, globalIndex := AppendRenumbered(all, pageChunks, globalIndex);
      }
      assert pages[..|pages|] == pages;
      if all != [] {
        return all;
      }
    }
    chunks := ChunkText(text, 1, 0, cfg);
  }

  lemma ChunksNumbered(text: Text, page: int, start: int, cfg: Config)
    requires cfg.Valid()
    ensures forall i | 0 <= i < |Chunks(text, page, start, cfg)| :: Chunks(text, page, start, cfg)[i].index == start + i
  {
  }

  lemma PageChunksStep(pages: seq<Page>, p: nat, cfg: Config)
    requires cfg.Valid() && p < |pages|
    ensures PageChunks(pages[..p + 1], cfg) == PageChunks(pages[..p], cfg) +
              Chunks(pages[p].text, pages[p].number, |PageChunks(pages[..p], cfg)|, cfg)
  {
    assert pages[..p + 1][..p] == pages[..p];
  }

  // ---- No word lost, none wasted ----

  /** Joining windows back: the first whole, each later one without the words it shares. */
  function Rebuild(windows: seq<seq<Text>>, shared: nat): seq<Text>
    requires windows != []
  {
    var last := windows[|windows| - 1];
    if |windows| == 1 then last
    else Rebuild(windows[..|windows| - 1], shared) + if shared <= |last| then last[shared..] else []
  }

  lemma Associates<T>(a: seq<T>, b: seq<T>, c: seq<T>)
    ensures (a + b) + c == a + (b + c)
  {
  }

  lemma {:induction false} RebuildFront(first: seq<Text>, rest: seq<seq<Text>>, shared: nat)
    requires rest != [] && shared <= |rest[0]|
    ensures Rebuild([first] + rest, shared) == first + Rebuild([rest[0][shared..]] + rest[1..], shared)
    decreases |rest|
  {
    var n := |rest|;
    var all, cut := [first] + rest, [rest[0][shared..]] + rest[1..];
    if n == 1 {
      assert all[..1] == [first];
    } else {
      var init, last := rest[..n - 1], rest[n - 1];
      assert init[0] == rest[0];
      assert all[..n] == [first] + init && all[n] == last;
      assert cut[..n - 1] == [init[0][shared..]] + init[1..] && cut[n - 1] == last;
      RebuildFront(first, init, shared);
      var added := if shared <= |last| then last[shared..] else [];
      Associates(first, Rebuild([init[0][shared..]] + init[1..], shared), added);
    }
  }

  /** The same windows with `k` words dropped from the first one. */
  lemma {:induction false} RebuildDrop(windows: seq<seq<Text>>, k: nat, shared: nat)
    requires windows != [] && k <= |windows[0]|
    ensures k <= |Rebuild(windows, shared)|
    ensures Rebuild([windows[0][k..]] + windows[1..], shared) == Rebuild(windows, shared)[k..]
  {
    var n := |windows|;
    var cut := [windows[0][k..]] + windows[1..];
    if n > 1 {
      assert cut[..n - 1] == [windows[..n - 1][0][k..]] + windows[..n - 1][1..];
      RebuildDrop(windows[..n - 1], k, shared);
    }
  }

  /** Every window after the first adds a new word, and none is longer than `size`. */
  lemma {:induction false} WindowSizes(words: seq<Text>, from: nat, size: nat, step: nat)
    requires from < |words| && 1 <= step <= size
    ensures forall i | 0 <= i < |Windows(words, from, size, step)| ::
              (if i == 0 then 0 else size - step) < |Windows(words, from, size, step)[i]| <= size
    decreases |words| - from
  {
    if from + size >= |words| {
    } else {
      var rest := Windows(words, from + step, size, step);
      WindowSizes(words, from + step, size, step);
      assert |rest[0]| == if from + step + size >= |words| then |words| - from - step else size;
    }
  }

  /** Neighbouring windows overlap: what a window shares is the end of the one before it. */
  lemma {:induction false} WindowsOverlap(words: seq<Text>, from: nat, size: nat, step: nat, i: nat)
    requires from <= |words| && 1 <= step <= size && i + 1 < |Windows(words, from, size, step)|
    ensures var ws := Windows(words, from, size, step);
      |ws[i]| == size && size - step <= |ws[i + 1]| && ws[i + 1][..size - step] == ws[i][step..]
    decreases |words| - from
  {
    var rest := Windows(words, from + step, size, step);
    assert from + size < |words|;
    if i == 0 {
      var end := if from + step + size <= |words| then from + step + size else |words|;
      assert rest[0] == words[from + step..end];
      assert words[from + step..end][..size - step] == words[from..from + size][step..];
    } else {
      WindowsOverlap(words, from + step, size, step, i - 1);
    }
  }

  /** Putting one more window in front of windows that already rebuild their words. */
  lemma RebuildOneMore(first: seq<Text>, rest: seq<seq<Text>>, shared: nat)
    requires rest != [] && shared <= |rest[0]|
    ensures shared <= |Rebuild(rest, shared)|
    ensures Rebuild([first] + rest, shared) == first + Rebuild(rest, shared)[shared..]
  {
    RebuildFront(first, rest, shared);
    RebuildDrop(rest, shared, shared);
  }

  /** The first window is long enough to hold what a later one shares. */
  lemma FirstWindow(words: seq<Text>, from: nat, size: nat, step: nat)
    requires from + size < |words| && 1 <= step <= size
    ensures Windows(words, from, size, step) == [words[from..from + size]] + Windows(words, from + step, size, step)
    ensures |Windows(words, from + step, size, step)[0]| >= size - step
  {
  }

  lemma StepOver<T>(words: seq<T>, from: nat, step: nat, size: nat)
    requires from + size < |words| && 1 <= step <= size
    ensures words[from + step..][size - step..] == words[from + size..]
    ensures words[from..] == words[from..from + size] + words[from + size..]
  {
  }

  /** The sliding window rebuilds its words. */
  lemma {:induction false} WindowsRebuild(words: seq<Text>, from: nat, size: nat, step: nat)
    requires from < |words| && 1 <= step <= size
    ensures Rebuild(Windows(words, from, size, step), size - step) == words[from..]
    decreases |words| - from
  {
    if from + size >= |words| {
    } else {
      hide Windows, Rebuild;
      FirstWindow(words, from, size, step);
      WindowsRebuild(words, from + step, size, step);
      RebuildOneMore(words[from..from + size], Windows(words, from + step, size, step), size - step);
      StepOver(words, from, step, size);
    }
  }

  /** One window when the words fit, otherwise one more than the words left over divided by the
      step, rounded up. */
  function WindowsNeeded(n: nat, size: nat, step: nat): nat
    requires step >= 1
  {
    if n <= size then 1 else (n - size + step - 1) / step + 1
  }

  lemma {:induction false} WindowCount(words: seq<Text>, from: nat, size: nat, step: nat)
    requires from <= |words| && 1 <= step <= size
    ensures |Windows(words, from, size, step)| == WindowsNeeded(|words| - from, size, step)
    decreases |words| - from
  {
    if from + size >= |words| {
    } else {
      WindowCount(words, from + step, size, step);
      CeilingStep(|words| - from - size, step);
    }
  }

  /** One more step covers `step` more words. */
  lemma CeilingStep(left: int, step: nat)
    requires left > 0 && step >= 1
    ensures (left + step - 1) / step == if left <= step then 1 else (left - step + step - 1) / step + 1
  {
    if left <= step {
      QuotientIs(left + step - 1, step, 1);
    } else {
      var q := (left - step + step - 1) / step;
      assert q * step <= left - 1 < q * step + step;
      assert (q + 1) * step == q * step + step;
      QuotientIs(left + step - 1, step, q + 1);
    }
  }

  lemma QuotientIs(a: int, d: nat, q: int)
    requires d >= 1 && q * d <= a < q * d + d
    ensures a / d == q
  {
    var p := a / d;
    assert p * d <= a < p * d + d;
    assert (p - q) * d == p * d - q * d;
    AtLeastOnce(p - q, d);
    AtLeastOnce(q - p, d);
  }

  lemma AtLeastOnce(m: int, d: nat)
    ensures m >= 1 ==> m * d >= d
  {
  }

  /** The words of each chunk's content. */
  function ContentWords(chunks: seq<Chunk>): seq<seq<Text>> {
    seq(|chunks|, i requires 0 <= i < |chunks| => Words(chunks[i].content))
  }

  lemma {:induction false} WindowsInside(words: seq<Text>, from: nat, size: nat, step: nat)
    requires from <= |words| && 1 <= step <= size
    ensures forall window, w | window in Windows(words, from, size, step) && w in window :: w in words
    decreases |words| - from
  {
    if from + size >= |words| {
    } else {
      WindowsInside(words, from + step, size, step);
    }
  }

  /** The words of a chunk's content are the window it was made from. */
  lemma ContentIsWindow(text: Text, page: int, start: int, size: nat, step: nat)
    requires 1 <= step <= size
    ensures var ws := Windows(Words(text), 0, size, step); ContentWords(Numbered(ws, page, start)) == ws
  {
    var ws := Windows(Words(text), 0, size, step);
    WordsAreWords(text);
    WindowsInside(Words(text), 0, size, step);
    forall i | 0 <= i < |ws| ensures Words(JoinWords(ws[i])) == ws[i] {
      assert ws[i] in ws;
      WordsOfJoin(ws[i]);
    }
  }

  /** The record made of a window of the text's words. */
  predicate Records(c: Chunk, window: seq<Text>, index: int, page: int) {
    && c.index == index && c.page == (if page == 0 then 1 else page)
    && Words(c.content) == window && c.wordCount == |window|
  }

  lemma NumberedRecords(text: Text, page: int, start: int, size: nat, step: nat, i: nat)
    requires 1 <= step <= size && i < |Windows(Words(text), 0, size, step)|
    ensures var ws := Windows(Words(text), 0, size, step); Records(Numbered(ws, page, start)[i], ws[i], start + i, page)
  {
    hide Words, EstimateTokens, JoinWords, Windows;
    var ws := Windows(Words(text), 0, size, step);
    ContentIsWindow(text, page, start, size, step);
    assert ContentWords(Numbered(ws, page, start))[i] == ws[i];
  }

  /** For every valid configuration and every text: the chunks are numbered from `start`, each
      holds its own words, the first chunk's words followed by the new words of each later chunk
      are exactly the words of the text, and each later chunk brings at least one new word. */
  lemma ChunksLoseNothing(text: Text, page: int, start: int, cfg: Config)
    requires cfg.Valid() && Words(text) != []
    ensures Rebuild(ContentWords(Chunks(text, page, start, cfg)), cfg.Shared()) == Words(text)
    ensures forall i | 0 <= i < |Chunks(text, page, start, cfg)| ::
              var c := Chunks(text, page, start, cfg)[i];
              && c.index == start + i
              && c.page == (if page == 0 then 1 else page)
              && c.wordCount == |Words(c.content)| <= cfg.WordsPerChunk()
              && c.wordCount > if i == 0 then 0 else cfg.Shared()
  {
    hide Words, Numbered, Windows, Rebuild, ContentWords, Config.WordsPerChunk, Config.StepSize;
    var size, step := cfg.WordsPerChunk(), cfg.StepSize();
    StepWithinWindow(cfg);
    ContentIsWindow(text, page, start, size, step);
    WindowsRebuild(Words(text), 0, size, step);
    WindowSizes(Words(text), 0, size, step);
    var ws := Windows(Words(text), 0, size, step);
    forall i | 0 <= i < |ws| ensures Records(Numbered(ws, page, start)[i], ws[i], start + i, page) {
      NumberedRecords(text, page, start, size, step, i);
    }
  }

  /** The exact number of chunks of a text with words. */
  lemma ChunkCount(text: Text, page: int, start: int, cfg: Config)
    requires cfg.Valid() && Words(text) != []
    ensures |Chunks(text, page, start, cfg)| == WindowsNeeded(|Words(text)|, cfg.WordsPerChunk(), cfg.StepSize())
  {
    StepWithinWindow(cfg);
    WindowCount(Words(text), 0, cfg.WordsPerChunk(), cfg.StepSize());
  }

  /** The windows show the words: each later one begins with the last `shared` words of the one before,
      all but the last have the full size, and without what they share they are the words. */
  ghost predicate Covers(windows: seq<seq<Text>>, words: seq<Text>, size: nat, shared: nat)
    requires shared < size
  {
    && windows != [] && Rebuild(windows, shared) == words
    && (forall i | 0 <= i < |windows| :: (if i == 0 then 0 else shared) < |windows[i]| <= size)
    && (forall i: nat | i + 1 < |windows| ::
          |windows[i]| == size && windows[i + 1][..shared] == windows[i][size - shared..])
  }

  lemma ChunksCover(text: Text, page: int, start: int, cfg: Config)
    requires cfg.Valid() && Words(text) != []
    ensures Covers(ContentWords(Chunks(text, page, start, cfg)), Words(text), cfg.WordsPerChunk(), cfg.Shared())
  {
    hide Words, Numbered, Rebuild, ContentWords, Config.WordsPerChunk, Config.StepSize, Windows;
    var size, step := cfg.WordsPerChunk(), cfg.StepSize();
    StepWithinWindow(cfg);
    var ws := Windows(Words(text), 0, size, step);
    ContentIsWindow(text, page, start, size, step);
    WindowsRebuild(Words(text), 0, size, step);
    WindowSizes(Words(text), 0, size, step);
    forall i: nat | i + 1 < |ws| ensures |ws[i]| == size && ws[i + 1][..size - step] == ws[i][step..] {
      WindowsOverlap(Words(text), 0, size, step, i);
    }
  }

  // ---- Documents ----

  /** Numbered 0, 1, 2, ... with no empty chunk. */
  ghost predicate WellNumbered(chunks: seq<Chunk>) {
    forall i | 0 <= i < |chunks| :: chunks[i].index == i && Words(chunks[i].content) != []
  }

  lemma {:induction false} PageChunksNumbered(pages: seq<Page>, cfg: Config)
    requires cfg.Valid()
    ensures WellNumbered(PageChunks(pages, cfg))
  {
    hide Words, Numbered, Windows, Config.WordsPerChunk, Config.StepSize;
    if pages == [] {
    } else {
      var last, before := pages[|pages| - 1], PageChunks(pages[..|pages| - 1], cfg);
      PageChunksNumbered(pages[..|pages| - 1], cfg);
      if Words(last.text) != [] {
        ChunksLoseNothing(last.text, last.number, |before|, cfg);
        forall i | |before| <= i < |PageChunks(pages, cfg)|
          ensures PageChunks(pages, cfg)[i].index == i && Words(PageChunks(pages, cfg)[i].content) != []
        {
          var c := Chunks(last.text, last.number, |before|, cfg)[i - |before|];
          assert PageChunks(pages, cfg)[i] == c;
          assert c.wordCount > 0;
        }
      }
    }
  }

  /** Over a whole document the indices are exactly 0..N-1 and no chunk is empty. */
  lemma DocumentChunksNumbered(text: Text, pages: seq<Page>, cfg: Config)
    requires cfg.Valid()
    ensures WellNumbered(DocumentChunks(text, pages, cfg))
  {
    PageChunksNumbered(pages, cfg);
    if Words(text) != [] {
      ChunksLoseNothing(text, 1, 0, cfg);
      forall i | 0 <= i < |Chunks(text, 1, 0, cfg)|
        ensures Chunks(text, 1, 0, cfg)[i].index == i && Words(Chunks(text, 1, 0, cfg)[i].content) != []
      {
        assert Chunks(text, 1, 0, cfg)[i].wordCount > 0;
      }
    }
  }

  /** Later pages leave the chunks of earlier pages where they are. */
  lemma {:induction false} PageChunksGrow(pages: seq<Page>, p: nat, cfg: Config)
    requires cfg.Valid() && p <= |pages|
    ensures PageChunks(pages[..p], cfg) <= PageChunks(pages, cfg)
    decreases |pages|
  {
    if p == |pages| {
      assert pages[..p] == pages;
    } else {
      var init := pages[..|pages| - 1];
      assert init[..p] == pages[..p];
      PageChunksGrow(init, p, cfg);
      assert PageChunks(init, cfg) <= PageChunks(pages, cfg);
    }
  }

  /** Pages stay in order: the chunks of page p stand together, right after those of the pages
      before it. */
  lemma PagesInOrder(pages: seq<Page>, p: nat, cfg: Config)
    requires cfg.Valid() && p < |pages|
    ensures var lo, hi := |PageChunks(pages[..p], cfg)|, |PageChunks(pages[..p + 1], cfg)|;
      && lo <= hi <= |PageChunks(pages, cfg)|
      && PageChunks(pages, cfg)[lo..hi] == Chunks(pages[p].text, pages[p].number, lo, cfg)
  {
    hide PageChunks, Chunks;
    var before, through := PageChunks(pages[..p], cfg), PageChunks(pages[..p + 1], cfg);
    PageChunksStep(pages, p, cfg);
    PageChunksGrow(pages, p + 1, cfg);
    assert PageChunks(pages, cfg)[|before|..|through|] == through[|before|..];
  }

  /** Every page with words is rebuilt, under its own number, from its own stretch of the
      document's chunks. */
  lemma PageRebuilt(pages: seq<Page>, p: nat, cfg: Config)
    requires cfg.Valid() && p < |pages| && Words(pages[p].text) != []
    ensures var lo, hi := |PageChunks(pages[..p], cfg)|, |PageChunks(pages[..p + 1], cfg)|;
      && lo < hi <= |PageChunks(pages, cfg)|
      && Rebuild(ContentWords(PageChunks(pages, cfg)[lo..hi]), cfg.Shared()) == Words(pages[p].text)
      && forall c | c in PageChunks(pages, cfg)[lo..hi] :: c.page == if pages[p].number == 0 then 1 else pages[p].number
  {
    PagesInOrder(pages, p, cfg);
    ChunksLoseNothing(pages[p].text, pages[p].number, |PageChunks(pages[..p], cfg)|, cfg);
  }

  // ---- Token counts ----

  /** No text gives a chunk whose token count exceeds the configured size. */
  ghost predicate TokensFit(cfg: Config)
    requires cfg.Valid()
  {
    forall text: Text, page: int, start: int, c
      | Words(text) != [] && c in Chunks(text, page, start, cfg) :: c.tokenCount as real <= cfg.chunkSize
  }

  lemma EstimateOfWords(text: Text)
    requires Words(text) != []
    ensures EstimateTokens(text) == (13 * |Words(text)| + 9) / 10
  {
  }

  lemma TokenCountOf(text: Text, page: int, start: int, cfg: Config, c: Chunk)
    requires cfg.Valid() && Words(text) != [] && c in Chunks(text, page, start, cfg)
    ensures 0 < c.wordCount <= cfg.WordsPerChunk() && c.tokenCount == (13 * c.wordCount + 9) / 10
  {
    hide Words, JoinWords, Windows, Config.WordsPerChunk, Config.StepSize, Rebuild, ContentWords;
    ChunksLoseNothing(text, page, start, cfg);
    var i :| 0 <= i < |Chunks(text, page, start, cfg)| && c == Chunks(text, page, start, cfg)[i];
    assert c.wordCount > 0;
    assert c.tokenCount == EstimateTokens(c.content);
    EstimateOfWords(c.content);
  }

  /** For whole sizes, every token count stays within the configured size exactly when the size
      is at least 2: a size of 1 already fails on a one-word text. */
  lemma TokensWithinSize(size: nat, cfg: Config)
    requires cfg.Valid() && cfg.chunkSize == size as real
    ensures size >= 2 <==> TokensFit(cfg)
  {
    if size >= 2 {
      forall text: Text, page: int, start: int, c
        | Words(text) != [] && c in Chunks(text, page, start, cfg)
        ensures c.tokenCount as real <= cfg.chunkSize
      {
        TokenCountOf(text, page, start, cfg, c);
        WindowTokens(size, c.wordCount);
      }
    } else {
      var one: Text := [65];
      FeedLetters(Reader([], []), one);
      assert [] + one == one;
      assert Words(one) == [one];
      StepWithinWindow(cfg);
      var c := Chunks(one, 1, 0, cfg)[0];
      TokenCountOf(one, 1, 0, cfg, c);
      assert c.tokenCount == 2;
      assert c in Chunks(one, 1, 0, cfg);
    }
  }

  lemma WindowTokens(size: nat, w: nat)
    requires size >= 2 && w <= Config(size as real, 0.0).WordsPerChunk()
    ensures (13 * w + 9) / 10 <= size
  {
    assert (size as real * 0.75).Floor == 3 * size / 4;
  }

  // ---- The recorded counts ----

  /** Each chunk records its length, and 1.3 tokens a word, rounded up. */
  lemma CountsRecorded(text: Text, page: int, start: int, cfg: Config, c: Chunk)
    requires cfg.Valid() && Words(text) != [] && c in Chunks(text, page, start, cfg)
    ensures c.characterCount == |c.content| && c.content == JoinWords(Words(c.content))
    ensures 10 * (c.tokenCount - 1) < 13 * |Words(c.content)| <= 10 * c.tokenCount
  {
    hide Words, JoinWords, EstimateTokens, Windows, Config.WordsPerChunk, Config.StepSize;
    TokenCountOf(text, page, start, cfg, c);
    StepWithinWindow(cfg);
    var ws := Windows(Words(text), 0, cfg.WordsPerChunk(), cfg.StepSize());
    var i :| 0 <= i < |ws| && c == Numbered(ws, page, start)[i];
    NumberedRecords(text, page, start, cfg.WordsPerChunk(), cfg.StepSize(), i);
  }
}
