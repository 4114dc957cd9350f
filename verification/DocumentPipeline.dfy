/** The pipeline of one document: extract, clean, chunk, embed. Proved: when it succeeds, what its rows
    show of the extracted text, page by page; and when it fails. */
module DocumentPipeline {
  import opened JsText
  import opened Outcomes
  import opened TextCleaner
  import opened Chunker
  import opened Embedding
  import ChunkStore

  type Row = ChunkStore.Row

  /** What a format-specific extractor gives for a file. */
  datatype Extraction = Extraction(text: Text, pages: seq<Page>)

  /** The services a run works with. */
  datatype Services = Services(cfg: Config, meaningful: Text -> bool, batchSize: nat, dimension: nat,
                               provider: Provider)
  {
    predicate Valid() {
      cfg.Valid() && batchSize >= 1
    }
  }

  datatype PipelineError = NoTextExtracted | NotCleanable | NoChunks | NotEmbedded

  function Contents(chunks: seq<Chunk>): (texts: seq<Text>)
    ensures |texts| == |chunks|
  {
    seq(|chunks|, i requires 0 <= i < |chunks| => chunks[i].content)
  }

  function Attach(chunks: seq<Chunk>, embeddings: seq<Vector>): (rows: seq<Row>)
    requires |embeddings| == |chunks|
    ensures |rows| == |chunks|
  {
    seq(|chunks|, i requires 0 <= i < |chunks| =>
        ChunkStore.Row(chunks[i].content, chunks[i].index, chunks[i].page, embeddings[i]))
  }

  function Pipeline(x: Extraction, s: Services): Result<seq<Row>, PipelineError>
    requires s.Valid()
  {
    if x.text == [] || Trim(x.text) == [] then Err(NoTextExtracted)
    else
      match CleanText(x.text, s.meaningful)
      case Err(_) => Err(NotCleanable)
      case Ok(cleaned) =>
        var chunks := DocumentChunks(cleaned, KeptPages(x.pages, s.meaningful), s.cfg);
        if chunks == [] then Err(NoChunks)
        else
          match EmbedFrom(Contents(chunks), 0, s.batchSize, s.dimension, s.provider)
          case Err(_) => Err(NotEmbedded)
          case Ok(embeddings) => if |embeddings| != |chunks| then Err(NotEmbedded) else Ok(Attach(chunks, embeddings))
  }

  function RowTexts(rows: seq<Row>): (texts: seq<Text>)
    ensures |texts| == |rows|
  {
    seq(|rows|, i requires 0 <= i < |rows| => rows[i].content)
  }

  /** A complete output: at least one row, numbered 0..n-1, none empty, each paired with the
      provider's answer for its own text in that text's own batch. */
  ghost predicate CompleteOutput(rows: seq<Row>, s: Services) {
    && rows != [] && s.batchSize >= 1
    && forall i: nat | i < |rows| ::
         && rows[i].index == i && Words(rows[i].content) != []
         && |rows[i].embedding| == s.dimension
         && OwnAnswer(RowTexts(rows), 0, s.batchSize, s.provider, i, rows[i].embedding)
  }

  // ---- What the rows show of the extraction ----

  function RowWords(rows: seq<Row>): (words: seq<seq<Text>>)
    ensures |words| == |rows|
  {
    seq(|rows|, i requires 0 <= i < |rows| => Words(rows[i].content))
  }

  /** The rows of one text: all on its page, joined by single spaces, and overlapping windows of the words
      left in the text once the deleted characters are out. */
  ghost predicate Stretch(rows: seq<Row>, number: int, raw: Text, cfg: Config)
    requires cfg.Valid()
  {
    SizesInTokens(cfg);
    && Covers(RowWords(rows), Words(Remove(raw, IsDeleted)), cfg.WordsPerChunk(), cfg.Shared())
    && forall row | row in rows ::
         row.page == (if number == 0 then 1 else number) && row.content == JoinWords(Words(row.content))
  }

  /** One stretch of rows for each page that cleans, in page order, and nothing for the others. */
  ghost predicate Stretches(rows: seq<Row>, pages: seq<Page>, s: Services)
    requires s.Valid()
    decreases |pages|
  {
    if pages == [] then rows == []
    else
      var before, last := pages[..|pages| - 1], pages[|pages| - 1];
      if !Cleans(last.text, s.meaningful) then Stretches(rows, before, s)
      else
        exists cut: nat | cut < |rows| ::
          Stretches(rows[..cut], before, s) && Stretch(rows[cut..], last.number, last.text, s.cfg)
  }

  ghost predicate SomeCleans(pages: seq<Page>, meaningful: Text -> bool) {
    exists page :: page in pages && Cleans(page.text, meaningful)
  }

  /** The rows show the pages that clean or, when none does, the whole text as page 1. */
  ghost predicate Represents(rows: seq<Row>, x: Extraction, s: Services)
    requires s.Valid()
  {
    if SomeCleans(x.pages, s.meaningful) then Stretches(rows, x.pages, s)
    else Stretch(rows, 1, x.text, s.cfg)
  }

  /** The rows are these chunks, apart from their embeddings and counts. */
  ghost predicate Show(rows: seq<Row>, chunks: seq<Chunk>) {
    && |rows| == |chunks|
    && forall i | 0 <= i < |rows| :: rows[i].content == chunks[i].content && rows[i].page == chunks[i].page
  }

  /** Every chunk is on its text's page and joins its words by single spaces. */
  lemma ChunkOnPage(text: Text, page: int, start: int, cfg: Config, c: Chunk)
    requires cfg.Valid() && Words(text) != [] && c in Chunks(text, page, start, cfg)
    ensures c.page == (if page == 0 then 1 else page) && c.content == JoinWords(Words(c.content))
  {
    hide Words, JoinWords, Chunks, Rebuild, ContentWords, Covers;
    CountsRecorded(text, page, start, cfg, c);
    ChunksLoseNothing(text, page, start, cfg);
    var i :| 0 <= i < |Chunks(text, page, start, cfg)| && c == Chunks(text, page, start, cfg)[i];
  }

  lemma ShownStretch(rows: seq<Row>, raw: Text, number: int, start: int, s: Services)
    requires s.Valid() && CleanText(raw, s.meaningful).Ok?
    requires Show(rows, Chunks(CleanText(raw, s.meaningful).value, number, start, s.cfg))
    ensures rows != [] && Stretch(rows, number, raw, s.cfg)
  {
    hide Words, JoinWords, Chunks, Covers, CleanText, Rewrite, Config.WordsPerChunk, Config.Shared;
    CleanTextOutcome(raw, s.meaningful);
    var text := CleanText(raw, s.meaningful).value;
    var chunks := Chunks(text, number, start, s.cfg);
    SizesInTokens(s.cfg);
    ChunksCover(text, number, start, s.cfg);
    assert RowWords(rows) == ContentWords(chunks);
    forall row | row in rows
      ensures row.page == (if number == 0 then 1 else number) && row.content == JoinWords(Words(row.content))
    {
      var i :| 0 <= i < |rows| && rows[i] == row;
      ChunkOnPage(text, number, start, s.cfg, chunks[i]);
    }
    CoversSomething(RowWords(rows), Words(text), s.cfg);
  }

  lemma CoversSomething(windows: seq<seq<Text>>, words: seq<Text>, cfg: Config)
    requires cfg.Valid() && cfg.Shared() < cfg.WordsPerChunk()
    requires Covers(windows, words, cfg.WordsPerChunk(), cfg.Shared())
    ensures windows != []
  {
  }

  /** One page more: its chunks follow those of the pages before it. */
  lemma ShownOnePage(rows: seq<Row>, before: seq<Page>, last: Page, s: Services) returns (cut: nat)
    requires s.Valid() && Cleans(last.text, s.meaningful)
    requires Show(rows, PageChunks(KeptPages(before + [last], s.meaningful), s.cfg))
    ensures cut < |rows| && Show(rows[..cut], PageChunks(KeptPages(before, s.meaningful), s.cfg))
    ensures Stretch(rows[cut..], last.number, last.text, s.cfg)
  {
    hide Chunks, CleanText, Cleans, Stretch;
    CleanTextOutcome(last.text, s.meaningful);
    assert (before + [last])[..|before|] == before;
    var text := CleanText(last.text, s.meaningful).value;
    var kept := KeptPages(before, s.meaningful) + [Page(last.number, text)];
    assert kept == KeptPages(before + [last], s.meaningful);
    assert kept[..|kept| - 1] == KeptPages(before, s.meaningful);
    cut := |PageChunks(KeptPages(before, s.meaningful), s.cfg)|;
    ShownStretch(rows[cut..], last.text, last.number, cut, s);
  }

  lemma KeptWithout(before: seq<Page>, last: Page, meaningful: Text -> bool)
    requires !Cleans(last.text, meaningful)
    ensures KeptPages(before + [last], meaningful) == KeptPages(before, meaningful)
  {
    hide CleanText, Cleans;
    CleanTextOutcome(last.text, meaningful);
    assert (before + [last])[..|before|] == before;
  }

  lemma SomeCleansSnoc(before: seq<Page>, last: Page, meaningful: Text -> bool)
    ensures SomeCleans(before + [last], meaningful) <==> SomeCleans(before, meaningful) || Cleans(last.text, meaningful)
  {
    hide Cleans;
    assert last in before + [last];
    if SomeCleans(before, meaningful) {
      var page :| page in before && Cleans(page.text, meaningful);
      assert page in before + [last];
    }
  }

  lemma {:induction false} ShownStretches(rows: seq<Row>, pages: seq<Page>, s: Services)
    requires s.Valid() && Show(rows, PageChunks(KeptPages(pages, s.meaningful), s.cfg))
    ensures Stretches(rows, pages, s)
    ensures rows == [] <==> !SomeCleans(pages, s.meaningful)
    decreases |pages|
  {
    hide Chunks, CleanText, Cleans, Stretch;
    if pages == [] {
    } else {
      hide KeptPages, PageChunks, Show, SomeCleans;
      var before, last := pages[..|pages| - 1], pages[|pages| - 1];
      assert pages == before + [last];
      SomeCleansSnoc(before, last, s.meaningful);
      if Cleans(last.text, s.meaningful) {
        var cut := ShownOnePage(rows, before, last, s);
        ShownStretches(rows[..cut], before, s);
      } else {
        KeptWithout(before, last, s.meaningful);
        ShownStretches(rows, before, s);
      }
    }
  }

  /** A successful pipeline's rows show the extraction. */
  lemma PipelineRepresents(x: Extraction, s: Services)
    requires s.Valid() && Pipeline(x, s).Ok?
    ensures Represents(Pipeline(x, s).value, x, s)
  {
    hide EmbedFrom, CleanText, Cleans, PageChunks, KeptPages, Stretch, Stretches, Chunks;
    CleanTextOutcome(x.text, s.meaningful);
    var rows := Pipeline(x, s).value;
    var byPage := PageChunks(KeptPages(x.pages, s.meaningful), s.cfg);
    var chunks := DocumentChunks(CleanText(x.text, s.meaningful).value, KeptPages(x.pages, s.meaningful), s.cfg);
    assert Show(rows, chunks);
    if byPage != [] {
      ShownStretches(rows, x.pages, s);
    } else {
      assert Show([], byPage);
      ShownStretches([], x.pages, s);
      ShownStretch(rows, x.text, 1, 0, s);
    }
  }

  lemma PipelineIsComplete(x: Extraction, s: Services)
    requires s.Valid() && Pipeline(x, s).Ok?
    ensures CompleteOutput(Pipeline(x, s).value, s)
  {
    hide OwnAnswer, EmbedFrom, DocumentChunks, CleanText, KeptPages, Words;
    var cleaned := CleanText(x.text, s.meaningful).value;
    var pages := KeptPages(x.pages, s.meaningful);
    var chunks := DocumentChunks(cleaned, pages, s.cfg);
    DocumentChunksNumbered(cleaned, pages, s.cfg);
    EmbeddingsAlign(Contents(chunks), 0, s.batchSize, s.dimension, s.provider);
    assert RowTexts(Pipeline(x, s).value) == Contents(chunks);
  }

  /** What a successful run makes of an extraction. */
  ghost predicate Outcome(rows: seq<Row>, x: Extraction, s: Services)
    requires s.Valid()
  {
    CompleteOutput(rows, s) && Represents(rows, x, s)
  }

  // ---- When the pipeline fails ----

  /** The provider answers every batch with one vector a text, each of the expected dimension. */
  ghost predicate Answers(s: Services) {
    forall batch: nat, texts: seq<Text> | 0 < |texts| <= s.batchSize ::
      var answer := s.provider(batch, texts);
      answer.Vectors? && |answer.vectors| == |texts| && forall v | v in answer.vectors :: |v| == s.dimension
  }

  /** The pipeline fails for want of words, or of anything meaningful, or of embeddings; never for want
      of chunks, and not at all on a cleanable text with a provider that answers properly. */
  lemma PipelineOutcome(x: Extraction, s: Services)
    requires s.Valid()
    ensures Pipeline(x, s) == Err(NoTextExtracted) <==> Words(x.text) == []
    ensures Pipeline(x, s) == Err(NotCleanable) <==> Words(x.text) != [] && !Cleans(x.text, s.meaningful)
    ensures Pipeline(x, s) != Err(NoChunks)
    ensures Words(x.text) != [] && Cleans(x.text, s.meaningful) && Answers(s) ==> Pipeline(x, s).Ok?
  {
    hide EmbedFrom, CleanText, Cleans, PageChunks, KeptPages, Words, Trim, Chunks, Answers;
    NoWordsIff(x.text);
    NothingHasNoWords();
    CleanTextOutcome(x.text, s.meaningful);
    if Words(x.text) != [] && Cleans(x.text, s.meaningful) {
      var cleaned, pages := CleanText(x.text, s.meaningful).value, KeptPages(x.pages, s.meaningful);
      HasChunks(cleaned, x, s);
      var chunks := DocumentChunks(cleaned, pages, s.cfg);
      if Answers(s) {
        AnsweredInFull(Contents(chunks), s);
        EmbeddingsAlign(Contents(chunks), 0, s.batchSize, s.dimension, s.provider);
      }
    }
  }

  lemma NothingHasNoWords()
    ensures Words([]) == []
  {
  }

  lemma HasChunks(cleaned: Text, x: Extraction, s: Services)
    requires s.Valid() && Cleans(x.text, s.meaningful) && CleanText(x.text, s.meaningful) == Ok(cleaned)
    ensures DocumentChunks(cleaned, KeptPages(x.pages, s.meaningful), s.cfg) != []
  {
    hide PageChunks, KeptPages, Words, CleanText, Rewrite;
    CleanTextOutcome(x.text, s.meaningful);
    assert Words(cleaned) != [];
  }

  lemma BatchAnswered(texts: seq<Text>, s: Services, i: nat)
    requires s.Valid() && Answers(s) && i < |texts|
    ensures GoodBatch(texts, 0, s.batchSize, s.dimension, s.provider, i)
  {
    BatchHolds(s.batchSize, i);
    var (from, to) := BatchOf(texts, s.batchSize, i);
    assert 0 < |texts[from..to]| <= s.batchSize;
    assert 0 + i / s.batchSize == i / s.batchSize;
  }

  lemma AnsweredInFull(texts: seq<Text>, s: Services)
    requires s.Valid() && Answers(s)
    ensures EmbedFrom(texts, 0, s.batchSize, s.dimension, s.provider).Ok?
  {
    hide Answers, GoodBatch, EmbedFrom;
    EmbedsIff(texts, 0, s.batchSize, s.dimension, s.provider);
    forall i: nat | i < |texts| ensures GoodBatch(texts, 0, s.batchSize, s.dimension, s.provider, i) {
      BatchAnswered(texts, s, i);
    }
  }
}
