/** Document processing: the step system in which any number of workers run the pipeline on the same
    documents, interleaved at every await, retried, failing and crashing anywhere, and one call of
    processDocument with nobody else at work. */
module Processing {
  import opened JsText
  import opened Outcomes
  import opened TextCleaner
  import opened Chunker
  import opened Embedding
  import opened DocumentPipeline
  import ChunkStore
  import Versions

  type DocumentId = string
  type OrganizationId = string

  // ---- The system ----

  datatype Status = Uploaded | Queued | Running | Ready | Failed

  datatype Document = Document(organization: OrganizationId, status: Status, attempts: nat, error: Option<string>)

  /** Where a worker stands between two awaits of processDocument. */
  datatype Phase =
    | Loaded(document: DocumentId)               // row read, tenant checked
    | Counted(document: DocumentId)              // attempts incremented
    | Working(document: DocumentId)              // status PROCESSING written
    | Produced(document: DocumentId, run: nat)   // chunks embedded, nothing stored yet
    | Saved(document: DocumentId)                // save transaction committed
    | Numbering(document: DocumentId, next: nat) // latest version number read
    | Finishing(document: DocumentId)            // version step over
    | Catching(document: DocumentId)             // in the catch block

  /** A finished pipeline run (history only: no step depends on it beyond the worker's own rows). */
  datatype Run = Run(document: DocumentId, extraction: Extraction, services: Services, rows: seq<Row>)

  /** The rows are what the pipeline makes of this extraction. */
  ghost predicate Genuine(run: Run) {
    run.services.Valid() && Pipeline(run.extraction, run.services) == Ok(run.rows)
  }

  datatype System = System(
    documents: map<DocumentId, Document>,
    chunks: seq<ChunkStore.StoredRow>,
    versions: seq<Versions.Version>,
    workers: map<nat, Phase>,
    requests: map<nat, DocumentId>,
    runs: seq<Run>)

  const INITIAL := System(map[], [], [], map[], map[], [])

  /** One atomic step of some client, worker or the database. */
  datatype Event =
    | Upload(document: DocumentId, organization: OrganizationId)
    | CheckRequest(request: nat, document: DocumentId, organization: OrganizationId)
    | QueueRequest(request: nat)
    | Load(worker: nat, document: DocumentId, organization: OrganizationId)
    | CountAttempt(worker: nat)
    | MarkRunning(worker: nat)
    | Produce(worker: nat, extraction: Option<Extraction>, services: Services)
    | Save(worker: nat)
    | ReadVersion(worker: nat)
    | InsertVersion(worker: nat, hash: string)
    | SkipVersion(worker: nat)
    | MarkReady(worker: nat)
    | Throw(worker: nat)
    | MarkFailed(worker: nat, message: string)
    | Crash(worker: nat)

  function SetStatus(documents: map<DocumentId, Document>, d: DocumentId, status: Status, error: Option<string>)
    : map<DocumentId, Document>
    requires d in documents
  {
    documents[d := documents[d].(status := status, error := error)]
  }

  function AddAttempt(documents: map<DocumentId, Document>, d: DocumentId): map<DocumentId, Document>
    requires d in documents
  {
    documents[d := documents[d].(attempts := documents[d].attempts + 1)]
  }

  /** A job may be given to any idle worker at any time: delivery is at least once. */
  predicate Enabled(s: System, e: Event) {
    match e
    case Upload(d, _) => d !in s.documents
    case CheckRequest(q, d, org) =>
      && q !in s.requests && d in s.documents && s.documents[d].organization == org
      && s.documents[d].status != Queued && s.documents[d].status != Running
    case QueueRequest(q) => q in s.requests && s.requests[q] in s.documents
    case Load(w, d, org) => w !in s.workers && d in s.documents && s.documents[d].organization == org
    case Produce(w, _, services) => At(s, w) && s.workers[w].Working? && services.Valid()
    case CountAttempt(w) => At(s, w) && s.workers[w].Loaded?
    case MarkRunning(w) => At(s, w) && s.workers[w].Counted?
    case Save(w) => At(s, w) && s.workers[w].Produced? && s.workers[w].run < |s.runs|
    case ReadVersion(w) => At(s, w) && s.workers[w].Saved?
    case InsertVersion(w, _) => At(s, w) && s.workers[w].Numbering?
    case SkipVersion(w) => At(s, w) && (s.workers[w].Saved? || s.workers[w].Numbering?)
    case MarkReady(w) => At(s, w) && s.workers[w].Finishing?
    case Throw(w) => At(s, w) && !s.workers[w].Loaded? && !s.workers[w].Counted?
    case MarkFailed(w, _) => At(s, w) && s.workers[w].Catching?
    case Crash(w) => w in s.workers
  }

  predicate At(s: System, w: nat) {
    w in s.workers && s.workers[w].document in s.documents
  }

  function Go(s: System, w: nat, phase: Phase): System {
    s.(workers := s.workers[w := phase])
  }

  function Leave(s: System, w: nat): System {
    s.(workers := s.workers - {w})
  }

  function Step(s: System, e: Event): System
    requires Enabled(s, e)
  {
    match e
    case Upload(d, org) => s.(documents := s.documents[d := Document(org, Uploaded, 0, None)])
    case CheckRequest(q, d, _) => s.(requests := s.requests[q := d])
    case QueueRequest(q) =>
      s.(documents := SetStatus(s.documents, s.requests[q], Queued, None), requests := s.requests - {q})
    case Load(w, d, _) => Go(s, w, Loaded(d))
    case CountAttempt(w) =>
      var d := s.workers[w].document;
      Go(s.(documents := AddAttempt(s.documents, d)), w, Counted(d))
    case MarkRunning(w) =>
      var d := s.workers[w].document;
      Go(s.(documents := SetStatus(s.documents, d, Running, None)), w, Working(d))
    case Produce(w, extraction, services) =>
      var d := s.workers[w].document;
      if extraction.None? || Pipeline(extraction.value, services).Err? then Go(s, w, Catching(d))
      else
        var run := Run(d, extraction.value, services, Pipeline(extraction.value, services).value);
        Go(s.(runs := s.runs + [run]), w, Produced(d, |s.runs|))
    case Save(w) =>
      var d := s.workers[w].document;
      Go(s.(chunks := ChunkStore.Replace(s.chunks, d, s.runs[s.workers[w].run].rows)), w, Saved(d))
    case ReadVersion(w) =>
      var d := s.workers[w].document;
      Go(s, w, Numbering(d, Versions.NextNumber(s.versions, d)))
    case InsertVersion(w, hash) =>
      var d := s.workers[w].document;
      Go(s.(versions := Versions.Insert(s.versions, Versions.Version(d, s.workers[w].next, hash))), w, Finishing(d))
    case SkipVersion(w) => Go(s, w, Finishing(s.workers[w].document))
    case MarkReady(w) =>
      Leave(s.(documents := SetStatus(s.documents, s.workers[w].document, Ready, None)), w)
    case Throw(w) => Go(s, w, Catching(s.workers[w].document))
    case MarkFailed(w, message) =>
      Leave(s.(documents := SetStatus(s.documents, s.workers[w].document, Failed, Some(message))), w)
    case Crash(w) => Leave(s, w)
  }

  /** A run of the system: events that are not enabled do not happen. */
  function Execute(s: System, events: seq<Event>): System
    decreases |events|
  {
    if events == [] then s
    else Execute(if Enabled(s, events[0]) then Step(s, events[0]) else s, events[1..])
  }

  // ---- What every reachable state keeps ----

  /** The rows a reader finds for a document. */
  function ChunksOf(s: System, d: DocumentId): seq<ChunkStore.StoredRow> {
    ChunkStore.RowsOf(s.chunks, d)
  }

  /** The stored rows are exactly the output of one single run on that document. */
  ghost predicate FromOneRun(s: System, d: DocumentId) {
    exists r | 0 <= r < |s.runs| :: s.runs[r].document == d && ChunksOf(s, d) == ChunkStore.StoredAll(d, s.runs[r].rows)
  }

  ghost predicate PhaseOk(s: System, phase: Phase) {
    && phase.document in s.documents
    && (phase.Produced? ==> phase.run < |s.runs| && s.runs[phase.run].document == phase.document)
    && (phase.Saved? || phase.Numbering? || phase.Finishing? ==> ChunksOf(s, phase.document) != [])
    && (phase.Numbering? ==> 1 <= phase.next <= Versions.NextNumber(s.versions, phase.document))
  }

  ghost predicate Inv(s: System) {
    && (forall d :: ChunksOf(s, d) == [] || FromOneRun(s, d))
    && (forall d | d in s.documents && s.documents[d].status == Ready :: ChunksOf(s, d) != [])
    && (forall d | d in s.documents :: s.documents[d].error.Some? <==> s.documents[d].status == Failed)
    && (forall r | 0 <= r < |s.runs| :: Genuine(s.runs[r]))
    && (forall w | w in s.workers :: PhaseOk(s, s.workers[w]))
    && Versions.Contiguous(s.versions)
  }

  lemma InitialOk()
    ensures Inv(INITIAL)
  {
  }

  /** The history only grows, so what came from one run still does. */
  lemma StillFromOneRun(s: System, t: System, d: DocumentId)
    requires ChunksOf(s, d) == [] || FromOneRun(s, d)
    requires s.runs <= t.runs && ChunksOf(t, d) == ChunksOf(s, d)
    ensures ChunksOf(t, d) == [] || FromOneRun(t, d)
  {
    if ChunksOf(s, d) != [] {
      var q :| 0 <= q < |s.runs| && s.runs[q].document == d
               && ChunksOf(s, d) == ChunkStore.StoredAll(d, s.runs[q].rows);
      assert t.runs[q] == s.runs[q];
    }
  }

  ghost predicate DocumentOk(s: System, d: DocumentId)
    requires d in s.documents
  {
    && (s.documents[d].status == Ready ==> ChunksOf(s, d) != [])
    && (s.documents[d].error.Some? <==> s.documents[d].status == Failed)
  }

  /** A step of worker `w` (or of no worker) that stores no chunks and inserts no version: only
      what it changed has to be looked at again. */
  lemma QuietStep(s: System, t: System)
    requires Inv(s)
    requires t.chunks == s.chunks && t.versions == s.versions && s.runs <= t.runs
    requires forall r | |s.runs| <= r < |t.runs| :: Genuine(t.runs[r])
    requires s.documents.Keys <= t.documents.Keys
    requires forall d | d in t.documents :: (d in s.documents && t.documents[d] == s.documents[d]) || DocumentOk(t, d)
    requires forall w | w in t.workers :: (w in s.workers && t.workers[w] == s.workers[w]) || PhaseOk(t, t.workers[w])
    ensures Inv(t)
  {
    forall d ensures ChunksOf(t, d) == [] || FromOneRun(t, d) {
      StillFromOneRun(s, t, d);
    }
    forall w | w in t.workers ensures PhaseOk(t, t.workers[w]) {
      if w in s.workers {
        assert PhaseOk(s, s.workers[w]);
      }
    }
    forall d | d in t.documents ensures DocumentOk(t, d) {
      if d in s.documents && t.documents[d] == s.documents[d] {
        assert ChunksOf(t, d) == ChunksOf(s, d);
      }
    }
  }

  lemma ChunksAfterSave(s: System, t: System, d: DocumentId, rows: seq<Row>, e: DocumentId)
    requires t.chunks == ChunkStore.Replace(s.chunks, d, rows)
    ensures ChunksOf(t, e) == if e == d then ChunkStore.StoredAll(d, rows) else ChunksOf(s, e)
  {
    ChunkStore.SaveReplaces(s.chunks, d, rows, e);
  }

  /** Storing the complete output of one run on a document. */
  lemma SaveKeepsInv(s: System, d: DocumentId, r: nat)
    requires Inv(s) && d in s.documents && r < |s.runs| && s.runs[r].document == d
    ensures Inv(s.(chunks := ChunkStore.Replace(s.chunks, d, s.runs[r].rows)))
    ensures ChunksOf(s.(chunks := ChunkStore.Replace(s.chunks, d, s.runs[r].rows)), d) != []
  {
    hide ChunkStore.Replace, ChunkStore.RowsOf, Genuine;
    var rows := s.runs[r].rows;
    RunsAreNotEmpty(s, r);
    var t := s.(chunks := ChunkStore.Replace(s.chunks, d, rows));
    ChunksAfterSave(s, t, d, rows, d);
    forall e ensures ChunksOf(t, e) == [] || FromOneRun(t, e) {
      if e != d {
        ChunksAfterSave(s, t, d, rows, e);
        StillFromOneRun(s, t, e);
      }
    }
    forall v | v in t.workers ensures PhaseOk(t, t.workers[v]) {
      assert PhaseOk(s, s.workers[v]);
      ChunksAfterSave(s, t, d, rows, s.workers[v].document);
    }
    forall e | e in t.documents ensures DocumentOk(t, e) {
      ChunksAfterSave(s, t, d, rows, e);
    }
  }

  lemma RunsAreNotEmpty(s: System, r: nat)
    requires Inv(s) && r < |s.runs|
    ensures s.runs[r].rows != []
  {
    assert Genuine(s.runs[r]);
    PipelineIsComplete(s.runs[r].extraction, s.runs[r].services);
  }

  lemma PhaseHolds(s: System, w: nat)
    requires Inv(s) && w in s.workers
    ensures PhaseOk(s, s.workers[w])
  {
  }

  lemma NextIsPositive(versions: seq<Versions.Version>, d: DocumentId)
    ensures Versions.NextNumber(versions, d) >= 1
  {
  }

  /** A version number read earlier, inserted now. */
  lemma InsertKeepsInv(s: System, version: Versions.Version)
    requires Inv(s) && 1 <= version.number <= Versions.NextNumber(s.versions, version.document)
    ensures Inv(s.(versions := Versions.Insert(s.versions, version)))
  {
    hide Genuine, ChunkStore.RowsOf, ChunkStore.StoredAll, Versions.Insert, Versions.NextNumber, Versions.Contiguous;
    var t := s.(versions := Versions.Insert(s.versions, version));
    Versions.InsertKeepsContiguous(s.versions, version);
    forall d ensures ChunksOf(t, d) == [] || FromOneRun(t, d) {
      StillFromOneRun(s, t, d);
    }
    forall v | v in t.workers ensures PhaseOk(t, t.workers[v]) {
      PhaseHolds(s, v);
      Versions.NextNumberGrows(s.versions, version, s.workers[v].document);
    }
  }

  /** Steps by which a worker moves on without touching a table. */
  lemma MoveKeepsInv(s: System, w: nat, phase: Phase)
    requires Inv(s) && PhaseOk(s, phase)
    ensures Inv(Go(s, w, phase))
  {
    QuietStep(s, Go(s, w, phase));
  }

  lemma StatusKeepsInv(s: System, d: DocumentId, status: Status, error: Option<string>)
    requires Inv(s) && d in s.documents
    requires status == Ready ==> ChunksOf(s, d) != []
    requires error.Some? <==> status == Failed
    ensures Inv(s.(documents := SetStatus(s.documents, d, status, error)))
  {
    QuietStep(s, s.(documents := SetStatus(s.documents, d, status, error)));
  }

  lemma AttemptKeepsInv(s: System, d: DocumentId)
    requires Inv(s) && d in s.documents
    ensures Inv(s.(documents := AddAttempt(s.documents, d)))
  {
    QuietStep(s, s.(documents := AddAttempt(s.documents, d)));
  }

  lemma LeaveKeepsInv(s: System, w: nat)
    requires Inv(s)
    ensures Inv(Leave(s, w))
  {
    QuietStep(s, Leave(s, w));
  }

  lemma RunKeepsInv(s: System, run: Run)
    requires Inv(s) && Genuine(run)
    ensures Inv(s.(runs := s.runs + [run]))
  {
    hide Genuine, ChunkStore.RowsOf;
    QuietStep(s, s.(runs := s.runs + [run]));
  }

  lemma ProduceKeepsInv(s: System, w: nat, x: Option<Extraction>, services: Services)
    requires Inv(s) && Enabled(s, Produce(w, x, services))
    ensures Inv(Step(s, Produce(w, x, services)))
  {
    hide Inv, Pipeline, ChunkStore.RowsOf;
    var d := s.workers[w].document;
    if x.Some? && Pipeline(x.value, services).Ok? {
      var run := Run(d, x.value, services, Pipeline(x.value, services).value);
      RunKeepsInv(s, run);
      MoveKeepsInv(s.(runs := s.runs + [run]), w, Produced(d, |s.runs|));
    } else {
      MoveKeepsInv(s, w, Catching(d));
    }
  }

  lemma StepKeepsInv(s: System, e: Event)
    requires Inv(s) && Enabled(s, e)
    ensures Inv(Step(s, e))
  {
    hide Inv, Pipeline, Genuine, ChunkStore.RowsOf, ChunkStore.Replace, Versions.Insert, Versions.NextNumber;
    match e
    case Upload(d, org) =>
      QuietStep(s, Step(s, e));
    case CheckRequest(q, d, org) =>
      QuietStep(s, Step(s, e));
    case QueueRequest(q) =>
      StatusKeepsInv(s, s.requests[q], Queued, None);
      QuietStep(s.(documents := SetStatus(s.documents, s.requests[q], Queued, None)), Step(s, e));
    case Load(w, d, org) =>
      MoveKeepsInv(s, w, Loaded(d));
    case CountAttempt(w) =>
      var d := s.workers[w].document;
      AttemptKeepsInv(s, d);
      MoveKeepsInv(s.(documents := AddAttempt(s.documents, d)), w, Counted(d));
    case MarkRunning(w) =>
      var d := s.workers[w].document;
      StatusKeepsInv(s, d, Running, None);
      MoveKeepsInv(s.(documents := SetStatus(s.documents, d, Running, None)), w, Working(d));
    case Produce(w, x, services) =>
      ProduceKeepsInv(s, w, x, services);
    case Save(w) =>
      var d := s.workers[w].document;
      PhaseHolds(s, w);
      SaveKeepsInv(s, d, s.workers[w].run);
      MoveKeepsInv(s.(chunks := ChunkStore.Replace(s.chunks, d, s.runs[s.workers[w].run].rows)), w, Saved(d));
    case ReadVersion(w) =>
      PhaseHolds(s, w);
      NextIsPositive(s.versions, s.workers[w].document);
      MoveKeepsInv(s, w, Numbering(s.workers[w].document, Versions.NextNumber(s.versions, s.workers[w].document)));
    case InsertVersion(w, hash) =>
      var version := Versions.Version(s.workers[w].document, s.workers[w].next, hash);
      PhaseHolds(s, w);
      InsertKeepsInv(s, version);
      MoveKeepsInv(s.(versions := Versions.Insert(s.versions, version)), w, Finishing(s.workers[w].document));
    case SkipVersion(w) =>
      PhaseHolds(s, w);
      MoveKeepsInv(s, w, Finishing(s.workers[w].document));
    case MarkReady(w) =>
      PhaseHolds(s, w);
      StatusKeepsInv(s, s.workers[w].document, Ready, None);
      LeaveKeepsInv(s.(documents := SetStatus(s.documents, s.workers[w].document, Ready, None)), w);
    case Throw(w) =>
      MoveKeepsInv(s, w, Catching(s.workers[w].document));
    case MarkFailed(w, message) =>
      StatusKeepsInv(s, s.workers[w].document, Failed, Some(message));
      LeaveKeepsInv(s.(documents := SetStatus(s.documents, s.workers[w].document, Failed, Some(message))), w);
    case Crash(w) =>
      LeaveKeepsInv(s, w);
  }

  lemma {:induction false} ExecuteKeepsInv(s: System, events: seq<Event>)
    requires Inv(s)
    ensures Inv(Execute(s, events))
    decreases |events|
  {
    if events == [] {
    } else {
      if Enabled(s, events[0]) {
        StepKeepsInv(s, events[0]);
        ExecuteKeepsInv(Step(s, events[0]), events[1..]);
      } else {
        ExecuteKeepsInv(s, events[1..]);
      }
    }
  }

  function StoredTexts(stored: seq<ChunkStore.StoredRow>): (texts: seq<Text>)
    ensures |texts| == |stored|
  {
    seq(|stored|, i requires 0 <= i < |stored| => stored[i].content)
  }

  /** A complete set of stored rows: some, numbered 0..n-1, none empty, each carrying the provider's
      answer for its own text in that text's own batch. */
  ghost predicate CompleteStore(stored: seq<ChunkStore.StoredRow>, s: Services) {
    && stored != [] && s.batchSize >= 1
    && forall i: nat | i < |stored| ::
         && stored[i].index == i && Words(stored[i].content) != [] && |stored[i].embedding| == s.dimension
         && OwnAnswer(StoredTexts(stored), 0, s.batchSize, s.provider, i, stored[i].embedding)
  }

  lemma HeldIsComplete(stored: seq<ChunkStore.StoredRow>, d: DocumentId, rows: seq<Row>, s: Services)
    requires ChunkStore.Hold(stored, d, rows) && CompleteOutput(rows, s)
    ensures CompleteStore(stored, s)
  {
    hide Words, OwnAnswer;
    assert StoredTexts(stored) == RowTexts(rows);
  }

  /** Over every run, however workers interleave, fail, crash and repeat: a document's stored rows
      are either none or all that the pipeline makes of one single extraction of it. They then show that
      extraction, are complete, and each carries its own text's embedding. A READY document always has
      some. */
  lemma ChunksAreNeverMixed(events: seq<Event>, d: DocumentId)
    ensures var s := Execute(INITIAL, events);
      && (ChunksOf(s, d) == [] ||
          exists r | 0 <= r < |s.runs| ::
            && s.runs[r].document == d && s.runs[r].services.Valid()
            && Pipeline(s.runs[r].extraction, s.runs[r].services) == Ok(s.runs[r].rows)
            && Represents(s.runs[r].rows, s.runs[r].extraction, s.runs[r].services)
            && ChunkStore.Hold(ChunksOf(s, d), d, s.runs[r].rows)
            && CompleteStore(ChunksOf(s, d), s.runs[r].services))
      && (d in s.documents && s.documents[d].status == Ready ==> ChunksOf(s, d) != [])
      && (d in s.documents ==> (s.documents[d].status == Failed <==> s.documents[d].error.Some?))
  {
    hide Pipeline, CompleteOutput, CompleteStore, Represents, ChunkStore.RowsOf, ChunkStore.StoredAll, Execute;
    hide ChunkStore.Hold;
    InitialOk();
    ExecuteKeepsInv(INITIAL, events);
    var s := Execute(INITIAL, events);
    if ChunksOf(s, d) != [] {
      assert FromOneRun(s, d);
      var q :| 0 <= q < |s.runs| && s.runs[q].document == d
               && ChunksOf(s, d) == ChunkStore.StoredAll(d, s.runs[q].rows);
      var run := s.runs[q];
      assert Genuine(run);
      PipelineIsComplete(run.extraction, run.services);
      PipelineRepresents(run.extraction, run.services);
      ChunkStore.StoredRowsHold(d, run.rows);
      HeldIsComplete(ChunksOf(s, d), d, run.rows, run.services);
    }
  }

  /** Over every run, the version numbers of every document are exactly 1, 2, ..., n. */
  lemma VersionsCountUp(events: seq<Event>, d: DocumentId)
    ensures var numbers := Versions.NumbersOf(Execute(INITIAL, events).versions, d);
      forall i | 0 <= i < |numbers| :: numbers[i] == i + 1
  {
    InitialOk();
    ExecuteKeepsInv(INITIAL, events);
    assert Versions.CountsUp(Versions.NumbersOf(Execute(INITIAL, events).versions, d));
  }

  // ---- One uninterrupted call ----

  datatype Tables = Tables(documents: map<DocumentId, Document>, chunks: seq<ChunkStore.StoredRow>,
                           versions: seq<Versions.Version>)

  /** What a call leaves in the tables: one more attempt and the final status; on success the document's rows
      show the extraction and, when a hash was found, it has one version more; otherwise its rows and versions
      are as they were. No other document changes. */
  ghost predicate Processed(before: Tables, after: Tables, d: DocumentId, ok: bool, x: Option<Extraction>,
                            services: Services, hash: Option<string>, message: string)
    requires d in before.documents && services.Valid()
  {
    var was := before.documents[d];
    && after.documents == before.documents[d := Document(was.organization, if ok then Ready else Failed,
                                                         was.attempts + 1, if ok then None else Some(message))]
    && (ok ==> x.Some? && Words(x.value.text) != [] && Cleans(x.value.text, services.meaningful))
    && (ok ==> exists rows :: Outcome(rows, x.value, services)
                              && ChunkStore.Hold(ChunkStore.RowsOf(after.chunks, d), d, rows))
    && (!ok ==> after.chunks == before.chunks)
    && (forall e | e != d :: ChunkStore.RowsOf(after.chunks, e) == ChunkStore.RowsOf(before.chunks, e))
    && if ok && hash.Some? then Versions.AddsOne(before.versions, after.versions, d, hash.value)
       else after.versions == before.versions
  }

  datatype ProcessingError = IdsRequired | DocumentNotFound | TenantViolation | ProcessingFailed

  class DocumentProcessingService {
    var documents: map<DocumentId, Document>
    var versions: seq<Versions.Version>
    const chunkRepo: ChunkStore.DocumentChunkRepository

    constructor (repo: ChunkStore.DocumentChunkRepository)
      ensures documents == map[] && versions == [] && chunkRepo == repo
    {
      documents, versions, chunkRepo := map[], [], repo;
    }

    /** Steps 4 to 9 of processDocument: everything between the status writes that touches no
        table. */
    method ProduceRows(extraction: Option<Extraction>, services: Services) returns (r: Result<seq<Row>, PipelineError>)
      requires services.Valid()
      ensures r == Attempt(extraction, services)
      ensures r.Ok? ==> extraction.Some? && Outcome(r.value, extraction.value, services)
      ensures r == Err(NoTextExtracted) <==> extraction.None? || Words(extraction.value.text) == []
      ensures r == Err(NotCleanable) <==>
                && extraction.Some? && Words(extraction.value.text) != []
                && !Cleans(extraction.value.text, services.meaningful)
      ensures r != Err(NoChunks)
    {
      AttemptOutcome(extraction, services);
      hide Outcome, Words, Cleans, Trim, CleanText, DocumentChunks, KeptPages, EmbedFrom;
      if extraction.None? || extraction.value.text == [] || Trim(extraction.value.text) == [] {
        return Err(NoTextExtracted);
      }
      var cleaned := CleanText(extraction.value.text, services.meaningful);
      if cleaned.Err? {
        return Err(NotCleanable);
      }
      var cleanedPages := CleanPages(extraction.value.pages, services.meaningful);
      var chunks := ChunkDocument(cleaned.value, cleanedPages, services.cfg);
      if chunks == [] {
        return Err(NoChunks);
      }
      var embeddings := GenerateEmbeddings(Contents(chunks), services.batchSize, services.dimension, services.provider);
      if embeddings.Err? || |embeddings.value| != |chunks| {
        return Err(NotEmbedded);
      }
      r := Ok(Attach(chunks, embeddings.value));
    }

    /** Steps 10 to 13: store what was produced, number a version, write the final status. */
    method Conclude(d: DocumentId, rows: Result<seq<Row>, PipelineError>, saveFailsAt: Option<nat>,
                    hash: Option<string>, message: string) returns (r: Result<nat, ProcessingError>)
      requires d != "" && d in documents
      requires rows.Ok? ==> rows.value != [] && ChunkStore.DistinctIndices(rows.value)
      modifies this, chunkRepo
      ensures r == if rows.Ok? && (saveFailsAt.None? || saveFailsAt.value > |rows.value|) then Ok(|rows.value|)
                   else Err(ProcessingFailed)
      ensures documents ==
              SetStatus(old(documents), d, if r.Ok? then Ready else Failed, if r.Ok? then None else Some(message))
      ensures chunkRepo.table ==
              if r.Ok? then ChunkStore.Replace(old(chunkRepo.table), d, rows.value) else old(chunkRepo.table)
      ensures versions == if r.Ok? && hash.Some? then WithNextVersion(old(versions), d, hash.value) else old(versions)
    {
      if rows.Err? {
        documents := SetStatus(documents, d, Failed, Some(message));
        return Err(ProcessingFailed);
      }
      var saved := chunkRepo.SaveChunksWithEmbeddings(d, rows.value, saveFailsAt);
      if saved.Err? {
        documents := SetStatus(documents, d, Failed, Some(message));
        return Err(ProcessingFailed);
      }
      if hash.Some? {
        var next := Versions.NextNumber(versions, d);
        versions := Versions.Insert(versions, Versions.Version(d, next, hash.value));
      }
      documents := SetStatus(documents, d, Ready, None);
      r := Ok(|rows.value|);
    }

    /** processDocument, with nobody else at work. The file may not be there or not extract
        (None), the transaction may fail at a statement, the version step may fail before its hash
        is known (None); `message` is the error's text. A call for a missing document or another
        tenant's changes nothing; any other ends READY with the pipeline's whole output stored, or
        FAILED with the tables as they were. */
    method ProcessDocument(d: DocumentId, organization: OrganizationId, extraction: Option<Extraction>,
                           services: Services, saveFailsAt: Option<nat>, hash: Option<string>, message: string)
      returns (r: Result<nat, ProcessingError>)
      requires services.Valid()
      modifies this, chunkRepo
      ensures r == Err(IdsRequired) <==> d == "" || organization == ""
      ensures r == Err(DocumentNotFound) <==> d != "" && organization != "" && d !in old(documents)
      ensures r == Err(TenantViolation) <==>
                d != "" && organization != "" && d in old(documents) && old(documents)[d].organization != organization
      ensures r.Err? && r != Err(ProcessingFailed) ==>
                documents == old(documents) && versions == old(versions) && chunkRepo.table == old(chunkRepo.table)
      ensures r.Ok? || r == Err(ProcessingFailed) ==>
                && d in old(documents)
                && var rows := Attempt(extraction, services);
                && r == (if rows.Ok? && (saveFailsAt.None? || saveFailsAt.value > |rows.value|) then Ok(|rows.value|)
                         else Err(ProcessingFailed))
                && chunkRepo.table == (if r.Ok? then ChunkStore.Replace(old(chunkRepo.table), d, rows.value)
                                       else old(chunkRepo.table))
                && Processed(Tables(old(documents), old(chunkRepo.table), old(versions)),
                             Tables(documents, chunkRepo.table, versions),
                             d, r.Ok?, extraction, services, hash, message)
      ensures r == Err(ProcessingFailed) && saveFailsAt.None? && extraction.Some? && Answers(services) ==>
                Words(extraction.value.text) == [] || !Cleans(extraction.value.text, services.meaningful)
    {
      hide Attempt, Outcome, Words, Cleans, Answers, ChunkStore.Replace, ChunkStore.RowsOf, ChunkStore.Hold;
      hide Versions.AddsOne;
      if d == "" || organization == "" {
        return Err(IdsRequired);
      }
      if d !in documents {
        return Err(DocumentNotFound);
      }
      if documents[d].organization != organization {
        return Err(TenantViolation);
      }
      documents := AddAttempt(documents, d);
      documents := SetStatus(documents, d, Running, None);
      var rows := ProduceRows(extraction, services);
      ProducedRowsFit(extraction, services);
      AttemptOutcome(extraction, services);
      ghost var before := Tables(old(documents), chunkRepo.table, versions);
      r := Conclude(d, rows, saveFailsAt, hash, message);
      CallLeaves(before, Tables(documents, chunkRepo.table, versions), d, r.Ok?, extraction, services, hash, message);
    }
  }

  function Attempt(extraction: Option<Extraction>, services: Services): Result<seq<Row>, PipelineError>
    requires services.Valid()
  {
    if extraction.None? then Err(NoTextExtracted) else Pipeline(extraction.value, services)
  }

  /** What an attempt makes of the extraction, and when it fails. */
  lemma AttemptOutcome(x: Option<Extraction>, services: Services)
    requires services.Valid()
    ensures var r := Attempt(x, services);
      && (r.Ok? ==> x.Some? && Outcome(r.value, x.value, services))
      && (r == Err(NoTextExtracted) <==> x.None? || Words(x.value.text) == [])
      && (r == Err(NotCleanable) <==>
            x.Some? && Words(x.value.text) != [] && !Cleans(x.value.text, services.meaningful))
      && r != Err(NoChunks)
      && (x.Some? && Answers(services) && r.Err? ==>
            Words(x.value.text) == [] || !Cleans(x.value.text, services.meaningful))
  {
    hide Pipeline, Words, Cleans, Answers;
    if x.Some? {
      PipelineOutcome(x.value, services);
      if Pipeline(x.value, services).Ok? {
        PipelineIsComplete(x.value, services);
        PipelineRepresents(x.value, services);
      }
    }
  }

  function WithNextVersion(versions: seq<Versions.Version>, d: DocumentId, hash: string): seq<Versions.Version> {
    Versions.Insert(versions, Versions.Version(d, Versions.NextNumber(versions, d), hash))
  }

  /** The writes of a call, put together. */
  lemma CallLeaves(before: Tables, after: Tables, d: DocumentId, ok: bool, x: Option<Extraction>,
                   services: Services, hash: Option<string>, message: string)
    requires d in before.documents && services.Valid() && (ok ==> Attempt(x, services).Ok?)
    requires after.documents == SetStatus(AddAttempt(before.documents, d), d, if ok then Ready else Failed,
                                          if ok then None else Some(message))
    requires after.chunks == if ok then ChunkStore.Replace(before.chunks, d, Attempt(x, services).value)
                             else before.chunks
    requires after.versions == if ok && hash.Some? then WithNextVersion(before.versions, d, hash.value)
                               else before.versions
    ensures Processed(before, after, d, ok, x, services, hash, message)
  {
    hide Attempt, Outcome, Words, Cleans, Answers, ChunkStore.Replace, ChunkStore.RowsOf, ChunkStore.Hold;
    hide Versions.AddsOne, Versions.Insert, Versions.NextNumber;
    if ok {
      AttemptOutcome(x, services);
      ChunkStore.ReplaceHolds(before.chunks, d, Attempt(x, services).value);
      if hash.Some? {
        Versions.CreateVersionAdds(before.versions, d, hash.value);
      }
    }
  }

  lemma ProducedRowsFit(extraction: Option<Extraction>, services: Services)
    requires services.Valid()
    ensures var r := Attempt(extraction, services); r.Ok? ==> r.value != [] && ChunkStore.DistinctIndices(r.value)
  {
    if Attempt(extraction, services).Ok? {
      PipelineIsComplete(extraction.value, services);
    }
  }

  function TryStep(s: System, e: Event): System {
    if Enabled(s, e) then Step(s, e) else s
  }

  lemma ExecuteTwo(s: System, a: Event, b: Event)
    ensures Execute(s, [a, b]) == TryStep(TryStep(s, a), b)
  {
    hide Enabled, Step;
    assert [a, b][1..] == [b] && [b][1..] == [];
    assert Execute(TryStep(s, a), [b]) == Execute(TryStep(TryStep(s, a), b), []);
  }

  predicate MayQueue(s: System, d: DocumentId, org: OrganizationId) {
    && d in s.documents && s.documents[d].organization == org
    && s.documents[d].status != Queued && s.documents[d].status != Running
  }

  /** A request to process a document, undisturbed: it queues the document and clears its error, unless the
      document is not this tenant's, or is queued or running already; then nothing changes. */
  lemma RequestQueues(s: System, q: nat, d: DocumentId, org: OrganizationId)
    requires q !in s.requests
    ensures Execute(s, [CheckRequest(q, d, org), QueueRequest(q)]) ==
            if MayQueue(s, d, org)
            then s.(documents := s.documents[d := Document(org, Queued, s.documents[d].attempts, None)])
            else s
  {
    ExecuteTwo(s, CheckRequest(q, d, org), QueueRequest(q));
    if MayQueue(s, d, org) {
      assert s.requests[q := d] - {q} == s.requests;
    }
  }

  /** A fresh upload, requested, is queued with no attempt behind it. */
  lemma UploadQueues(s: System, q: nat, d: DocumentId, org: OrganizationId)
    requires q !in s.requests && d !in s.documents
    ensures Execute(s, [Upload(d, org), CheckRequest(q, d, org), QueueRequest(q)]) ==
            s.(documents := s.documents[d := Document(org, Queued, 0, None)])
  {
    hide Execute;
    var check, queue := CheckRequest(q, d, org), QueueRequest(q);
    var t := Step(s, Upload(d, org));
    ExecuteOne(s, Upload(d, org), [check, queue]);
    assert [Upload(d, org)] + [check, queue] == [Upload(d, org), check, queue];
    RequestQueues(t, q, d, org);
  }

  /** A job for another organization's document, or for a document that is gone, is dropped. */
  lemma ForeignJobIsDropped(s: System, w: nat, d: DocumentId, org: OrganizationId)
    requires d in s.documents ==> s.documents[d].organization != org
    ensures Execute(s, [Load(w, d, org)]) == s
  {
    assert [Load(w, d, org)][1..] == [];
    assert Execute(s, []) == s;
  }

  /** The steps of one undisturbed call: up to the embedded chunks, and from there to its end. */
  function FirstHalf(w: nat, d: DocumentId, org: OrganizationId, x: Option<Extraction>, services: Services)
    : seq<Event>
  {
    [Load(w, d, org), CountAttempt(w), MarkRunning(w), Produce(w, x, services)]
  }

  function SecondHalf(w: nat, produced: bool, saveFails: bool, hash: Option<string>, message: string): seq<Event> {
    if !produced then [MarkFailed(w, message)]
    else if saveFails then [Throw(w), MarkFailed(w, message)]
    else if hash.None? then [Save(w), SkipVersion(w), MarkReady(w)]
    else [Save(w), ReadVersion(w), InsertVersion(w, hash.value), MarkReady(w)]
  }

  lemma {:induction false} ExecuteConcat(s: System, a: seq<Event>, b: seq<Event>)
    ensures Execute(s, a + b) == Execute(Execute(s, a), b)
    decreases |a|
  {
    if a == [] {
      assert a + b == b;
    } else {
      assert (a + b)[1..] == a[1..] + b;
      ExecuteConcat(if Enabled(s, a[0]) then Step(s, a[0]) else s, a[1..], b);
    }
  }

  lemma ExecuteOne(s: System, e: Event, rest: seq<Event>)
    requires Enabled(s, e)
    ensures Execute(s, [e] + rest) == Execute(Step(s, e), rest)
  {
    assert ([e] + rest)[1..] == rest;
  }

  lemma ExecuteFour(s: System, a: Event, b: Event, c: Event, d: Event)
    requires Enabled(s, a) && Enabled(Step(s, a), b)
    requires Enabled(Step(Step(s, a), b), c) && Enabled(Step(Step(Step(s, a), b), c), d)
    ensures Execute(s, [a, b, c, d]) == Step(Step(Step(Step(s, a), b), c), d)
  {
    hide Enabled, Step;
    ExecuteOne(s, a, [b, c, d]);
    ExecuteOne(Step(s, a), b, [c, d]);
    ExecuteOne(Step(Step(s, a), b), c, [d]);
    ExecuteOne(Step(Step(Step(s, a), b), c), d, []);
    assert [a] + [b, c, d] == [a, b, c, d] && [b] + [c, d] == [b, c, d] && [c] + [d] == [c, d] && [d] + [] == [d];
  }

  lemma FirstHalfRuns(s: System, w: nat, d: DocumentId, x: Option<Extraction>, services: Services)
    requires w !in s.workers && d in s.documents && services.Valid()
    ensures var rows := Attempt(x, services);
      Execute(s, FirstHalf(w, d, s.documents[d].organization, x, services)) ==
      s.(documents := SetStatus(AddAttempt(s.documents, d), d, Running, None),
         workers := s.workers[w := if rows.Ok? then Produced(d, |s.runs|) else Catching(d)],
         runs := if rows.Ok? then s.runs + [Run(d, x.value, services, rows.value)] else s.runs)
  {
    hide Pipeline, Execute;
    ExecuteFour(s, Load(w, d, s.documents[d].organization), CountAttempt(w), MarkRunning(w), Produce(w, x, services));
  }

  lemma FailureRuns(s: System, w: nat, d: DocumentId, message: string)
    requires w in s.workers && d in s.documents && s.workers[w] == Catching(d)
    ensures Execute(s, [MarkFailed(w, message)]) ==
            s.(documents := SetStatus(s.documents, d, Failed, Some(message)), workers := s.workers - {w})
  {
    hide Pipeline;
    ExecuteOne(s, MarkFailed(w, message), []);
    assert [MarkFailed(w, message)] + [] == [MarkFailed(w, message)];
  }

  lemma ThrowRuns(s: System, w: nat, d: DocumentId, message: string)
    requires w in s.workers && d in s.documents && s.workers[w].Produced? && s.workers[w].document == d
    ensures Execute(s, [Throw(w), MarkFailed(w, message)]) ==
            s.(documents := SetStatus(s.documents, d, Failed, Some(message)), workers := s.workers - {w})
  {
    hide Pipeline;
    var t := Step(s, Throw(w));
    ExecuteOne(s, Throw(w), [MarkFailed(w, message)]);
    assert [Throw(w)] + [MarkFailed(w, message)] == [Throw(w), MarkFailed(w, message)];
    FailureRuns(t, w, d, message);
    assert t.workers - {w} == s.workers - {w};
  }

  lemma SkippedVersionRuns(s: System, w: nat, d: DocumentId)
    requires w in s.workers && d in s.documents
    requires s.workers[w].Produced? && s.workers[w].document == d && s.workers[w].run < |s.runs|
    ensures Execute(s, [Save(w), SkipVersion(w), MarkReady(w)]) ==
            s.(documents := SetStatus(s.documents, d, Ready, None),
               chunks := ChunkStore.Replace(s.chunks, d, s.runs[s.workers[w].run].rows),
               workers := s.workers - {w})
  {
    hide Execute, ChunkStore.Replace, Pipeline;
    var s1 := Step(s, Save(w));
    var s2 := Step(s1, SkipVersion(w));
    ExecuteOne(s, Save(w), [SkipVersion(w), MarkReady(w)]);
    ExecuteOne(s1, SkipVersion(w), [MarkReady(w)]);
    ExecuteOne(s2, MarkReady(w), []);
    ExecuteNothing(Step(s2, MarkReady(w)));
    assert [Save(w)] + [SkipVersion(w), MarkReady(w)] == [Save(w), SkipVersion(w), MarkReady(w)];
    assert [SkipVersion(w)] + [MarkReady(w)] == [SkipVersion(w), MarkReady(w)] && [MarkReady(w)] + [] == [MarkReady(w)];
    assert s.workers[w := Saved(d)][w := Finishing(d)] - {w} == s.workers - {w};
  }

  lemma ExecuteNothing(s: System)
    ensures Execute(s, []) == s
  {
  }

  lemma NumberedVersionRuns(s: System, w: nat, d: DocumentId, hash: string)
    requires w in s.workers && d in s.documents
    requires s.workers[w].Produced? && s.workers[w].document == d && s.workers[w].run < |s.runs|
    ensures Execute(s, [Save(w), ReadVersion(w), InsertVersion(w, hash), MarkReady(w)]) ==
            s.(documents := SetStatus(s.documents, d, Ready, None),
               chunks := ChunkStore.Replace(s.chunks, d, s.runs[s.workers[w].run].rows),
               versions := WithNextVersion(s.versions, d, hash),
               workers := s.workers - {w})
  {
    hide Execute, ChunkStore.Replace, Versions.Insert, Versions.NextNumber, Pipeline;
    ExecuteFour(s, Save(w), ReadVersion(w), InsertVersion(w, hash), MarkReady(w));
    var numbering := Numbering(d, Versions.NextNumber(s.versions, d));
    assert s.workers[w := Saved(d)][w := numbering][w := Finishing(d)] - {w} == s.workers - {w};
  }

  lemma StatusOverwrites(documents: map<DocumentId, Document>, d: DocumentId, status: Status, error: Option<string>)
    requires d in documents
    ensures SetStatus(SetStatus(documents, d, Running, None), d, status, error)
         == SetStatus(documents, d, status, error)
  {
  }

  lemma UndisturbedWrites(s: System, w: nat, d: DocumentId, x: Option<Extraction>, services: Services,
                          saveFails: bool, hash: Option<string>, message: string)
    requires w !in s.workers && d in s.documents && services.Valid()
    ensures var rows := Attempt(x, services);
      var t := Execute(s, FirstHalf(w, d, s.documents[d].organization, x, services)
                          + SecondHalf(w, rows.Ok?, saveFails, hash, message));
      var ok := rows.Ok? && !saveFails;
      && t.documents == SetStatus(AddAttempt(s.documents, d), d, if ok then Ready else Failed,
                                  if ok then None else Some(message))
      && t.versions == (if ok && hash.Some? then WithNextVersion(s.versions, d, hash.value) else s.versions)
      && t.chunks == (if ok then ChunkStore.Replace(s.chunks, d, rows.value) else s.chunks)
      && t.workers == s.workers
  {
    hide Attempt, Execute, FirstHalf, WithNextVersion, ChunkStore.Replace;
    var org, rows := s.documents[d].organization, Attempt(x, services);
    ExecuteConcat(s, FirstHalf(w, d, org, x, services), SecondHalf(w, rows.Ok?, saveFails, hash, message));
    FirstHalfRuns(s, w, d, x, services);
    var t := Execute(s, FirstHalf(w, d, org, x, services));
    assert t.workers - {w} == s.workers;
    StatusOverwrites(AddAttempt(s.documents, d), d, Ready, None);
    StatusOverwrites(AddAttempt(s.documents, d), d, Failed, Some(message));
    if rows.Err? {
      FailureRuns(t, w, d, message);
    } else if saveFails {
      ThrowRuns(t, w, d, message);
    } else if hash.None? {
      SkippedVersionRuns(t, w, d);
    } else {
      NumberedVersionRuns(t, w, d, hash.value);
    }
  }

  /** The step system, run without interference, does to the tables what the uninterrupted call
      does, whether the pipeline or the save fails or all succeeds, with or without a version. */
  lemma UndisturbedRun(s: System, w: nat, d: DocumentId, x: Option<Extraction>, services: Services, saveFails: bool,
                       hash: Option<string>, message: string)
    requires w !in s.workers && d in s.documents && services.Valid()
    ensures var rows := Attempt(x, services);
      var t := Execute(s, FirstHalf(w, d, s.documents[d].organization, x, services)
                          + SecondHalf(w, rows.Ok?, saveFails, hash, message));
      var ok := rows.Ok? && !saveFails;
      && Processed(Tables(s.documents, s.chunks, s.versions), Tables(t.documents, t.chunks, t.versions),
                   d, ok, x, services, hash, message)
      && t.chunks == (if ok then ChunkStore.Replace(s.chunks, d, rows.value) else s.chunks)
      && t.workers == s.workers
  {
    hide Attempt, Execute, FirstHalf, SecondHalf, WithNextVersion, ChunkStore.Replace, SetStatus, AddAttempt, Processed;
    UndisturbedWrites(s, w, d, x, services, saveFails, hash, message);
    var rows := Attempt(x, services);
    var t := Execute(s, FirstHalf(w, d, s.documents[d].organization, x, services)
                        + SecondHalf(w, rows.Ok?, saveFails, hash, message));
    CallLeaves(Tables(s.documents, s.chunks, s.versions), Tables(t.documents, t.chunks, t.versions),
               d, rows.Ok? && !saveFails, x, services, hash, message);
  }
}
