/** The document_chunks table and its transactional delete-then-insert. */
module ChunkStore {
  import opened JsText
  import opened Outcomes
  import opened Embedding

  type DocumentId = string

  /** A chunk with its embedding, as handed to the repository. */
  datatype Row = Row(content: Text, index: int, page: int, embedding: Vector)

  /** A stored row. Page 0 is stored as no page. */
  datatype StoredRow = StoredRow(document: DocumentId, index: int, content: Text, page: Option<int>, embedding: Vector)

  function Stored(document: DocumentId, row: Row): StoredRow {
    StoredRow(document, row.index, row.content, if row.page == 0 then None else Some(row.page), row.embedding)
  }

  function StoredAll(document: DocumentId, rows: seq<Row>): (r: seq<StoredRow>)
    ensures |r| == |rows|
  {
    seq(|rows|, i requires 0 <= i < |rows| => Stored(document, rows[i]))
  }

  function RowsOf(table: seq<StoredRow>, document: DocumentId): seq<StoredRow> {
    if table == [] then []
    else
      var rest := RowsOf(table[..|table| - 1], document);
      if table[|table| - 1].document == document then rest + [table[|table| - 1]] else rest
  }

  function Without(table: seq<StoredRow>, document: DocumentId): seq<StoredRow> {
    if table == [] then []
    else
      var rest := Without(table[..|table| - 1], document);
      if table[|table| - 1].document == document then rest else rest + [table[|table| - 1]]
  }

  /** The table after a committed save. */
  function Replace(table: seq<StoredRow>, document: DocumentId, rows: seq<Row>): seq<StoredRow> {
    Without(table, document) + StoredAll(document, rows)
  }

  /** The unique constraint on (document, chunk index). */
  predicate Taken(table: seq<StoredRow>, document: DocumentId, index: int) {
    exists i | 0 <= i < |table| :: table[i].document == document && table[i].index == index
  }

  predicate DistinctIndices(rows: seq<Row>) {
    forall i, j | 0 <= i < j < |rows| :: rows[i].index != rows[j].index
  }

  lemma {:induction false} RowsOfConcat(a: seq<StoredRow>, b: seq<StoredRow>, document: DocumentId)
    ensures RowsOf(a + b, document) == RowsOf(a, document) + RowsOf(b, document)
  {
    if b == [] {
      assert a + b == a;
    } else {
      assert (a + b)[..|a + b| - 1] == a + b[..|b| - 1];
      RowsOfConcat(a, b[..|b| - 1], document);
    }
  }

  lemma {:induction false} RowsOfWithout(table: seq<StoredRow>, gone: DocumentId, document: DocumentId)
    ensures RowsOf(Without(table, gone), document) == if document == gone then [] else RowsOf(table, document)
  {
    if table == [] {
    } else {
      var init, last := table[..|table| - 1], table[|table| - 1];
      RowsOfWithout(init, gone, document);
      RowsOfConcat(Without(init, gone), [last], document);
      assert RowsOf([last], document) == if last.document == document then [last] else [];
    }
  }

  lemma {:induction false} RowsOfStored(owner: DocumentId, rows: seq<Row>, document: DocumentId)
    ensures RowsOf(StoredAll(owner, rows), document) == if document == owner then StoredAll(owner, rows) else []
  {
    if rows == [] {
    } else {
      var all := StoredAll(owner, rows);
      assert all[..|all| - 1] == StoredAll(owner, rows[..|rows| - 1]);
      RowsOfStored(owner, rows[..|rows| - 1], document);
      assert document == owner ==> all == all[..|all| - 1] + [all[|all| - 1]];
    }
  }

  /** The stored rows hold, place by place, the document, index, text, page and vector of the given ones. */
  ghost predicate Hold(stored: seq<StoredRow>, document: DocumentId, rows: seq<Row>) {
    && |stored| == |rows|
    && forall i | 0 <= i < |rows| ::
         && stored[i].document == document && stored[i].index == rows[i].index
         && stored[i].content == rows[i].content && stored[i].embedding == rows[i].embedding
         && (stored[i].page == None <==> rows[i].page == 0)
         && (stored[i].page.Some? ==> stored[i].page.value == rows[i].page)
  }

  lemma StoredRowsHold(document: DocumentId, rows: seq<Row>)
    ensures Hold(StoredAll(document, rows), document, rows)
  {
  }

  /** What a reader finds for a document is what the table has for it. */
  lemma {:induction false} RowsOfMeans(table: seq<StoredRow>, document: DocumentId, r: StoredRow)
    ensures r in RowsOf(table, document) <==> r in table && r.document == document
  {
    if table == [] {
    } else {
      RowsOfMeans(table[..|table| - 1], document, r);
      assert table == table[..|table| - 1] + [table[|table| - 1]];
    }
  }

  /** A save leaves exactly the given rows for its document and touches no other document. */
  lemma SaveReplaces(table: seq<StoredRow>, saved: DocumentId, rows: seq<Row>, document: DocumentId)
    ensures RowsOf(Replace(table, saved, rows), document)
         == if document == saved then StoredAll(saved, rows) else RowsOf(table, document)
  {
    RowsOfConcat(Without(table, saved), StoredAll(saved, rows), document);
    RowsOfWithout(table, saved, document);
    RowsOfStored(saved, rows, document);
  }

  /** Saving is idempotent: a second save of the same rows changes nothing a reader can see. */
  lemma SaveTwice(table: seq<StoredRow>, saved: DocumentId, rows: seq<Row>, document: DocumentId)
    ensures RowsOf(Replace(Replace(table, saved, rows), saved, rows), document)
         == RowsOf(Replace(table, saved, rows), document)
  {
    SaveReplaces(table, saved, rows, document);
    SaveReplaces(Replace(table, saved, rows), saved, rows, document);
  }

  lemma {:induction false} WithoutFrees(table: seq<StoredRow>, document: DocumentId)
    ensures forall i | 0 <= i < |Without(table, document)| :: Without(table, document)[i].document != document
  {
    if table == [] {
    } else {
      WithoutFrees(table[..|table| - 1], document);
    }
  }

  lemma DistinctOneMore(rows: seq<Row>, i: nat)
    requires i < |rows| && DistinctIndices(rows[..i])
    requires forall j | 0 <= j < i :: rows[j].index != rows[i].index
    ensures DistinctIndices(rows[..i + 1])
  {
    assert rows[..i + 1] == rows[..i] + [rows[i]];
  }

  lemma ReplaceHolds(table: seq<StoredRow>, document: DocumentId, rows: seq<Row>)
    ensures Hold(RowsOf(Replace(table, document, rows), document), document, rows)
    ensures forall d | d != document :: RowsOf(Replace(table, document, rows), d) == RowsOf(table, d)
  {
    hide Replace, RowsOf;
    SaveReplaces(table, document, rows, document);
    StoredRowsHold(document, rows);
    forall d | d != document {
      SaveReplaces(table, document, rows, d);
    }
  }

  datatype StoreError = DocumentIdRequired | UniqueViolation | DatabaseFailure

  class DocumentChunkRepository {
    var table: seq<StoredRow>

    constructor ()
      ensures table == []
    {
      table := [];
    }

    /** The transaction of saveChunksWithEmbeddings: one delete, then one insert a row. The database may
        fail before statement number `failsAt` (0 is the delete); a failed transaction is rolled back. */
    method DeleteThenInsert(document: DocumentId, rows: seq<Row>, failsAt: Option<nat>)
      returns (r: Result<nat, StoreError>)
      modifies this
      ensures r.Err? ==> table == old(table)
      ensures r.Ok? ==> r.value == |rows| && table == Replace(old(table), document, rows)
      ensures r.Ok? <==> DistinctIndices(rows) && (failsAt.Some? ==> failsAt.value > |rows|)
    {
      if failsAt == Some(0) {
        return Err(DatabaseFailure);
      }
      var before := table;
      table := Without(table, document);
      WithoutFrees(before, document);
      for i := 0 to |rows|
        invariant table == Without(before, document) + StoredAll(document, rows[..i])
        invariant DistinctIndices(rows[..i])
        invariant failsAt.Some? ==> failsAt.value > i
      {
        if failsAt == Some(i + 1) {
          table := before;
          return Err(DatabaseFailure);
        }
        if Taken(table, document, rows[i].index) {
          var k :| 0 <= k < |table| && table[k].document == document && table[k].index == rows[i].index;
          var kept := |Without(before, document)|;
          assert k >= kept && rows[..i][k - kept].index == rows[k - kept].index;
          table := before;
          return Err(UniqueViolation);
        }
        var start := |Without(before, document)|;
        forall j | 0 <= j < i ensures rows[j].index != rows[i].index {
          assert table[start + j] == Stored(document, rows[j]);
        }
        DistinctOneMore(rows, i);
        table := table + [Stored(document, rows[i])];
        assert StoredAll(document, rows[..i + 1]) == StoredAll(document, rows[..i]) + [Stored(document, rows[i])];
      }
      assert rows[..|rows|] == rows;
      r := Ok(|rows|);
    }

    /** saveChunksWithEmbeddings: afterwards the document has exactly the given rows, each with its own
        text, page and vector, or nothing has changed; other documents keep theirs in any case. */
    method SaveChunksWithEmbeddings(document: DocumentId, rows: seq<Row>, failsAt: Option<nat>)
      returns (r: Result<nat, StoreError>)
      modifies this
      ensures r.Err? ==> table == old(table)
      ensures r.Ok? ==> r.value == |rows| && document != ""
      ensures r.Ok? ==> table == if rows == [] then old(table) else Replace(old(table), document, rows)
      ensures r.Ok? && rows != [] ==> Hold(RowsOf(table, document), document, rows)
      ensures forall d | d != document :: RowsOf(table, d) == RowsOf(old(table), d)
      ensures r.Ok? <==>
                && document != ""
                && (rows == [] || (DistinctIndices(rows) && (failsAt.Some? ==> failsAt.value > |rows|)))
    {
      hide Replace, RowsOf, Hold;
      if document == "" {
        return Err(DocumentIdRequired);
      }
      if rows == [] {
        return Ok(0);
      }
      ReplaceHolds(table, document, rows);
      r := DeleteThenInsert(document, rows, failsAt);
    }
  }
}
