/** The save transaction statement by statement. Any number of saves run at once under READ COMMITTED:
    a DELETE works on the rows committed when it starts and waits for rows another save has deleted,
    and an INSERT waits for, or fails on, another row with its document and index. The atomic
    replacement of ChunkStore is what every commit amounts to, and of saves that overlap one commits. */
module SaveTransactions {
  import ChunkStore

  type DocumentId = ChunkStore.DocumentId
  type Row = ChunkStore.Row

  /** A row version: the save that inserted it, and its content under the unique (document, index). */
  datatype Tuple = Tuple(save: nat, document: DocumentId, row: Row)

  /** A save in progress. `seen` is what its DELETE found, `left` what it has yet to come to, `gone` what
      it has deleted and keeps locked; `inserted` counts its rows so far. */
  datatype Save = Save(document: DocumentId, rows: seq<Row>, started: bool, seen: set<Tuple>, left: set<Tuple>,
                       gone: set<Tuple>, inserted: nat)

  /** `begun` and `done` are history: what each save was to store, and which have committed. */
  datatype Table = Table(committed: set<Tuple>, live: map<nat, Save>, begun: map<nat, (DocumentId, seq<Row>)>,
                         done: set<nat>)

  const EMPTY := Table({}, map[], map[], {})

  datatype Event =
    | Begin(save: nat, document: DocumentId, rows: seq<Row>)
    | StartDelete(save: nat)
    | DeleteRow(save: nat, tuple: Tuple)
    | SkipRow(save: nat, tuple: Tuple)    // deleted by another save that has committed since
    | InsertRow(save: nat)
    | Commit(save: nat)
    | Abort(save: nat)

  /** Chunks reach the store numbered 0, 1, 2, ...; an empty save never starts a transaction. */
  predicate Numbered(rows: seq<Row>) {
    rows != [] && forall i | 0 <= i < |rows| :: rows[i].index == i
  }

  function Of(tuples: set<Tuple>, d: DocumentId): set<Tuple> {
    set r | r in tuples && r.document == d
  }

  function Batch(save: nat, d: DocumentId, rows: seq<Row>): set<Tuple> {
    set i | 0 <= i < |rows| :: Tuple(save, d, rows[i])
  }

  /** Another save holds the place in the unique index that the next row needs. */
  predicate PlaceHeld(t: Table, s: nat)
    requires s in t.live && t.live[s].inserted < |t.live[s].rows|
  {
    var me := t.live[s];
    var index := me.rows[me.inserted].index;
    || (exists r :: r in t.committed && r.document == me.document && r.row.index == index && r !in me.gone)
    || (exists u, i :: u in t.live && u != s && t.live[u].document == me.document && 0 <= i < |t.live[u].rows|
                       && i < t.live[u].inserted && t.live[u].rows[i].index == index)
  }

  predicate Enabled(t: Table, e: Event) {
    match e
    case Begin(s, _, rows) => s !in t.begun && Numbered(rows)
    case StartDelete(s) => s in t.live && !t.live[s].started
    case DeleteRow(s, r) =>
      s in t.live && r in t.live[s].left && r in t.committed && forall u | u in t.live && u != s :: r !in t.live[u].gone
    case SkipRow(s, r) => s in t.live && r in t.live[s].left && r !in t.committed
    case InsertRow(s) =>
      && s in t.live && t.live[s].started && t.live[s].left == {} && t.live[s].inserted < |t.live[s].rows|
      && !PlaceHeld(t, s)
    case Commit(s) => s in t.live && t.live[s].started && t.live[s].left == {} && t.live[s].inserted == |t.live[s].rows|
    case Abort(s) => s in t.live
  }

  function Go(t: Table, s: nat, save: Save): Table {
    t.(live := t.live[s := save])
  }

  function Step(t: Table, e: Event): Table
    requires Enabled(t, e)
  {
    match e
    case Begin(s, d, rows) =>
      t.(live := t.live[s := Save(d, rows, false, {}, {}, {}, 0)], begun := t.begun[s := (d, rows)])
    case StartDelete(s) =>
      var found := Of(t.committed, t.live[s].document);
      Go(t, s, t.live[s].(started := true, seen := found, left := found))
    case DeleteRow(s, r) => Go(t, s, t.live[s].(left := t.live[s].left - {r}, gone := t.live[s].gone + {r}))
    case SkipRow(s, r) => Go(t, s, t.live[s].(left := t.live[s].left - {r}))
    case InsertRow(s) => Go(t, s, t.live[s].(inserted := t.live[s].inserted + 1))
    case Commit(s) =>
      var me := t.live[s];
      t.(committed := t.committed - me.gone + Batch(s, me.document, me.rows),
         live := t.live - {s}, done := t.done + {s})
    case Abort(s) => t.(live := t.live - {s})
  }

  function Execute(t: Table, events: seq<Event>): Table
    decreases |events|
  {
    if events == [] then t
    else Execute(if Enabled(t, events[0]) then Step(t, events[0]) else t, events[1..])
  }

  // ---- What every reachable table keeps ----

  /** The tuples are everything one save was to store for the document. */
  ghost predicate WholeSave(t: Table, tuples: set<Tuple>, d: DocumentId) {
    exists s :: s in t.begun && t.begun[s].0 == d && tuples == Batch(s, d, t.begun[s].1)
  }

  /** A save's own books. */
  ghost predicate BooksOk(t: Table, s: nat)
    requires s in t.live
  {
    var me := t.live[s];
    && s in t.begun && t.begun[s] == (me.document, me.rows) && s !in t.done
    && (me.seen == {} || WholeSave(t, me.seen, me.document))
    && (forall r | r in me.seen :: r.document == me.document && r.save !in t.live && r.save in t.begun)
    && me.left <= me.seen && me.gone <= me.seen && me.gone <= t.committed
    && (forall r | r in me.seen && r in t.committed :: r in me.left || r in me.gone)
    && (!me.started ==> me.seen == {} && me.inserted == 0)
    && (me.inserted > 0 ==> me.left == {} && FirstPlaceGone(t, s))
  }

  /** Whatever is committed at the document's first place, this save has deleted it. */
  ghost predicate FirstPlaceGone(t: Table, s: nat)
    requires s in t.live
  {
    forall r | r in t.committed && r.document == t.live[s].document && r.row.index == 0 :: r in t.live[s].gone
  }

  /** Two saves lock different rows, and of one document only one has begun to insert. */
  ghost predicate Apart(t: Table, s: nat, u: nat)
    requires s in t.live && u in t.live
  {
    && t.live[s].gone !! t.live[u].gone
    && (t.live[s].document == t.live[u].document ==> t.live[s].inserted == 0 || t.live[u].inserted == 0)
  }

  ghost predicate Inv(t: Table) {
    && (forall d :: Of(t.committed, d) == {} || WholeSave(t, Of(t.committed, d), d))
    && (forall s | s in t.begun :: Numbered(t.begun[s].1))
    && (forall r | r in t.committed :: r.save !in t.live && r.save in t.begun)
    && (forall s | s in t.live :: BooksOk(t, s))
    && (forall s, u | s in t.live && u in t.live && s != u :: Apart(t, s, u))
    && (forall s | s in t.done :: s in t.begun)
  }

  lemma WholeSaveStays(t: Table, after: Table, tuples: set<Tuple>, d: DocumentId)
    requires WholeSave(t, tuples, d) && forall s | s in t.begun :: s in after.begun && after.begun[s] == t.begun[s]
    ensures WholeSave(after, tuples, d)
  {
    var s :| s in t.begun && t.begun[s].0 == d && tuples == Batch(s, d, t.begun[s].1);
    assert s in after.begun;
  }

  /** A whole save has a row at the first place. */
  lemma HasFirst(t: Table, tuples: set<Tuple>, d: DocumentId) returns (r: Tuple)
    requires WholeSave(t, tuples, d) && forall s | s in t.begun :: Numbered(t.begun[s].1)
    ensures r in tuples && r.document == d && r.row.index == 0
  {
    var s :| s in t.begun && t.begun[s].0 == d && tuples == Batch(s, d, t.begun[s].1);
    r := Tuple(s, d, t.begun[s].1[0]);
  }

  /** Two whole saves that share a row are the same. */
  lemma SameSave(t: Table, a: set<Tuple>, b: set<Tuple>, d: DocumentId, r: Tuple)
    requires WholeSave(t, a, d) && WholeSave(t, b, d) && r in a && r in b
    ensures a == b
  {
    var s :| s in t.begun && t.begun[s].0 == d && a == Batch(s, d, t.begun[s].1);
    var u :| u in t.begun && t.begun[u].0 == d && b == Batch(u, d, t.begun[u].1);
    assert r.save == s && r.save == u;
  }

  /** A save that has begun to insert has deleted every committed row of its document. */
  lemma InserterDeletedAll(t: Table, s: nat)
    requires Inv(t) && s in t.live && t.live[s].inserted > 0
    ensures Of(t.committed, t.live[s].document) <= t.live[s].gone
  {
    var d := t.live[s].document;
    var rows := Of(t.committed, d);
    assert BooksOk(t, s);
    if rows != {} {
      var first := HasFirst(t, rows, d);
      assert first in t.live[s].gone;
      SameSave(t, rows, t.live[s].seen, d, first);
    }
  }

  /** What a commit does to the rows of every document. */
  lemma CommittedAfter(t: Table, s: nat, d: DocumentId)
    requires Inv(t) && Enabled(t, Commit(s))
    ensures var me := t.live[s];
      Of(Step(t, Commit(s)).committed, d) == if d == me.document then Batch(s, d, me.rows) else Of(t.committed, d)
  {
    var me := t.live[s];
    assert BooksOk(t, s);
    assert Numbered(t.begun[s].1);
    InserterDeletedAll(t, s);
    var after := Step(t, Commit(s)).committed;
    if d == me.document {
      assert Of(after, d) == Batch(s, d, me.rows);
    } else {
      assert Of(after, d) == Of(t.committed, d);
    }
  }

  lemma BooksOf(t: Table, s: nat)
    requires Inv(t) && s in t.live
    ensures BooksOk(t, s) && Numbered(t.live[s].rows)
  {
    assert BooksOk(t, s);
  }

  lemma ApartOf(t: Table, s: nat, u: nat)
    requires Inv(t) && s in t.live && u in t.live && s != u
    ensures Apart(t, s, u)
  {
  }

  /** A step in which one save moves on and nothing else changes. */
  lemma GoKeepsInv(t: Table, s: nat, save: Save)
    requires Inv(t) && s in t.live && save.document == t.live[s].document && save.rows == t.live[s].rows
    requires BooksOk(Go(t, s, save), s)
    requires forall u | u in t.live && u != s :: Apart(Go(t, s, save), s, u)
    ensures Inv(Go(t, s, save))
  {
    hide Of, WholeSave, Numbered;
    var after := Go(t, s, save);
    forall d ensures Of(after.committed, d) == {} || WholeSave(after, Of(after.committed, d), d) {
      if Of(t.committed, d) != {} {
        WholeSaveStays(t, after, Of(t.committed, d), d);
      }
    }
    forall u | u in after.live ensures BooksOk(after, u) {
      if u != s {
        assert BooksOk(t, u);
        if t.live[u].seen != {} {
          WholeSaveStays(t, after, t.live[u].seen, t.live[u].document);
        }
      }
    }
    forall u, v | u in after.live && v in after.live && u != v ensures Apart(after, u, v) {
      if u != s && v != s {
        assert Apart(t, u, v);
      } else if v == s {
        assert Apart(after, s, u);
      }
    }
  }

  lemma BeginKeepsInv(t: Table, s: nat, d: DocumentId, rows: seq<Row>)
    requires Inv(t) && Enabled(t, Begin(s, d, rows))
    ensures Inv(Step(t, Begin(s, d, rows)))
  {
    hide Of, WholeSave, Numbered;
    var after := Step(t, Begin(s, d, rows));
    forall c ensures Of(after.committed, c) == {} || WholeSave(after, Of(after.committed, c), c) {
      if Of(t.committed, c) != {} {
        WholeSaveStays(t, after, Of(t.committed, c), c);
      }
    }
    forall u | u in after.live ensures BooksOk(after, u) {
      if u != s {
        assert BooksOk(t, u);
        if t.live[u].seen != {} {
          WholeSaveStays(t, after, t.live[u].seen, t.live[u].document);
        }
      }
    }
    forall u, v | u in after.live && v in after.live && u != v ensures Apart(after, u, v) {
      if u != s && v != s {
        assert Apart(t, u, v);
      }
    }
  }

  lemma StartKeepsInv(t: Table, s: nat)
    requires Inv(t) && Enabled(t, StartDelete(s))
    ensures Inv(Step(t, StartDelete(s)))
  {
    var me := t.live[s];
    var found := Of(t.committed, me.document);
    var save := me.(started := true, seen := found, left := found);
    var after := Go(t, s, save);
    assert BooksOk(t, s);
    if found != {} {
      WholeSaveStays(t, after, found, me.document);
    }
    forall u | u in t.live && u != s ensures Apart(after, s, u) {
      assert Apart(t, s, u);
    }
    GoKeepsInv(t, s, save);
  }

  lemma DeleteKeepsInv(t: Table, s: nat, r: Tuple)
    requires Inv(t) && Enabled(t, DeleteRow(s, r))
    ensures Inv(Step(t, DeleteRow(s, r)))
  {
    hide Inv, WholeSave;
    var me := t.live[s];
    var save := me.(left := me.left - {r}, gone := me.gone + {r});
    var after := Go(t, s, save);
    BooksOf(t, s);
    if me.seen != {} {
      WholeSaveStays(t, after, me.seen, me.document);
    }
    forall u | u in t.live && u != s ensures Apart(after, s, u) {
      ApartOf(t, s, u);
    }
    GoKeepsInv(t, s, save);
  }

  lemma SkipKeepsInv(t: Table, s: nat, r: Tuple)
    requires Inv(t) && Enabled(t, SkipRow(s, r))
    ensures Inv(Step(t, SkipRow(s, r)))
  {
    hide Inv, WholeSave;
    var me := t.live[s];
    var save := me.(left := me.left - {r});
    var after := Go(t, s, save);
    BooksOf(t, s);
    if me.seen != {} {
      WholeSaveStays(t, after, me.seen, me.document);
    }
    forall u | u in t.live && u != s ensures Apart(after, s, u) {
      ApartOf(t, s, u);
    }
    GoKeepsInv(t, s, save);
  }

  /** The first row goes in only when the first place is free, so when this save has cleared it itself and
      no other save of the document is past its first row. */
  lemma InsertKeepsInv(t: Table, s: nat)
    requires Inv(t) && Enabled(t, InsertRow(s))
    ensures Inv(Step(t, InsertRow(s)))
  {
    hide Inv, WholeSave, PlaceHeld, Numbered;
    var me := t.live[s];
    var save := me.(inserted := me.inserted + 1);
    var after := Go(t, s, save);
    BooksOf(t, s);
    if me.seen != {} {
      WholeSaveStays(t, after, me.seen, me.document);
    }
    if me.inserted == 0 {
      FirstPlaceFree(t, s);
    }
    forall u | u in t.live && u != s ensures Apart(after, s, u) {
      ApartOf(t, s, u);
    }
    GoKeepsInv(t, s, save);
  }

  lemma FirstPlaceFree(t: Table, s: nat)
    requires Inv(t) && Enabled(t, InsertRow(s)) && t.live[s].inserted == 0
    ensures FirstPlaceGone(t, s)
    ensures forall u | u in t.live && u != s && t.live[u].document == t.live[s].document :: t.live[u].inserted == 0
  {
    var me := t.live[s];
    hide Inv, WholeSave;
    BooksOf(t, s);
    assert me.rows[0].index == 0;
    forall u | u in t.live && u != s && t.live[u].document == me.document ensures t.live[u].inserted == 0 {
      BooksOf(t, u);
      assert t.live[u].rows[0].index == 0;
    }
  }

  lemma CommitKeepsInv(t: Table, s: nat)
    requires Inv(t) && Enabled(t, Commit(s))
    ensures Inv(Step(t, Commit(s)))
  {
    var me, after := t.live[s], Step(t, Commit(s));
    assert BooksOk(t, s) && Numbered(t.begun[s].1);
    forall d ensures Of(after.committed, d) == {} || WholeSave(after, Of(after.committed, d), d) {
      CommittedAfter(t, s, d);
      if d != me.document && Of(t.committed, d) != {} {
        WholeSaveStays(t, after, Of(t.committed, d), d);
      }
    }
    forall u | u in after.live ensures BooksOk(after, u) {
      BooksAfterCommit(t, s, u);
    }
    forall u, v | u in after.live && v in after.live && u != v ensures Apart(after, u, v) {
      assert Apart(t, u, v);
    }
  }

  lemma BooksAfterCommit(t: Table, s: nat, u: nat)
    requires Inv(t) && Enabled(t, Commit(s)) && u in t.live && u != s
    ensures BooksOk(Step(t, Commit(s)), u)
  {
    var after := Step(t, Commit(s));
    hide Inv, WholeSave;
    BooksOf(t, u);
    BooksOf(t, s);
    ApartOf(t, s, u);
    if t.live[u].seen != {} {
      WholeSaveStays(t, after, t.live[u].seen, t.live[u].document);
    }
    if t.live[u].inserted > 0 {
      CommittedAfter(t, s, t.live[u].document);
      forall r | r in after.committed && r.document == t.live[u].document && r.row.index == 0
        ensures r in t.live[u].gone
      {
        assert r in Of(after.committed, t.live[u].document);
      }
    }
  }

  lemma AbortKeepsInv(t: Table, s: nat)
    requires Inv(t) && Enabled(t, Abort(s))
    ensures Inv(Step(t, Abort(s)))
  {
    hide Of, WholeSave, Numbered;
    var after := Step(t, Abort(s));
    forall d ensures Of(after.committed, d) == {} || WholeSave(after, Of(after.committed, d), d) {
      if Of(t.committed, d) != {} {
        WholeSaveStays(t, after, Of(t.committed, d), d);
      }
    }
    forall u | u in after.live ensures BooksOk(after, u) {
      assert BooksOk(t, u);
      if t.live[u].seen != {} {
        WholeSaveStays(t, after, t.live[u].seen, t.live[u].document);
      }
    }
    forall u, v | u in after.live && v in after.live && u != v ensures Apart(after, u, v) {
      assert Apart(t, u, v);
    }
  }

  lemma StepKeepsInv(t: Table, e: Event)
    requires Inv(t) && Enabled(t, e)
    ensures Inv(Step(t, e))
  {
    hide Inv, PlaceHeld, Numbered;
    match e
    case Begin(s, d, rows) => BeginKeepsInv(t, s, d, rows);
    case StartDelete(s) => StartKeepsInv(t, s);
    case DeleteRow(s, r) => DeleteKeepsInv(t, s, r);
    case SkipRow(s, r) => SkipKeepsInv(t, s, r);
    case InsertRow(s) => InsertKeepsInv(t, s);
    case Commit(s) => CommitKeepsInv(t, s);
    case Abort(s) => AbortKeepsInv(t, s);
  }

  lemma EmptyOk()
    ensures Inv(EMPTY)
  {
  }

  lemma {:induction false} ExecuteKeepsInv(t: Table, events: seq<Event>)
    requires Inv(t)
    ensures Inv(Execute(t, events))
    decreases |events|
  {
    hide Inv, Enabled, Step;
    if events == [] {
    } else if Enabled(t, events[0]) {
      StepKeepsInv(t, events[0]);
      ExecuteKeepsInv(Step(t, events[0]), events[1..]);
    } else {
      ExecuteKeepsInv(t, events[1..]);
    }
  }

  /** However the statements of any number of saves interleave, wait, fail and abort: the rows anyone
      reads of a document are none, or exactly those of one save. */
  lemma ReadersSeeOneSave(events: seq<Event>, d: DocumentId)
    ensures var t := Execute(EMPTY, events);
      || Of(t.committed, d) == {}
      || exists s :: s in t.begun && t.begun[s].0 == d && Of(t.committed, d) == Batch(s, d, t.begun[s].1)
  {
    EmptyOk();
    ExecuteKeepsInv(EMPTY, events);
    var t := Execute(EMPTY, events);
    assert Of(t.committed, d) == {} || WholeSave(t, Of(t.committed, d), d);
  }

  // ---- Every commit is the atomic replacement ----

  function Visible(t: Table, d: DocumentId): set<ChunkStore.StoredRow> {
    set r | r in t.committed && r.document == d :: ChunkStore.Stored(d, r.row)
  }

  function Contents(table: seq<ChunkStore.StoredRow>, d: DocumentId): set<ChunkStore.StoredRow> {
    set r | r in ChunkStore.RowsOf(table, d)
  }

  lemma BatchShows(s: nat, d: DocumentId, rows: seq<Row>)
    ensures (set r | r in Batch(s, d, rows) :: ChunkStore.Stored(d, r.row))
         == set r | r in ChunkStore.StoredAll(d, rows)
  {
    var shown := set r | r in Batch(s, d, rows) :: ChunkStore.Stored(d, r.row);
    var all := ChunkStore.StoredAll(d, rows);
    forall x | x in all ensures x in shown {
      var i :| 0 <= i < |all| && all[i] == x;
      assert Tuple(s, d, rows[i]) in Batch(s, d, rows);
    }
    forall x | x in shown ensures x in all {
      var i :| 0 <= i < |rows| && x == ChunkStore.Stored(d, rows[i]);
      assert all[i] == x;
    }
  }

  lemma VisibleIsOf(t: Table, d: DocumentId)
    ensures Visible(t, d) == set r | r in Of(t.committed, d) :: ChunkStore.Stored(d, r.row)
  {
  }

  /** If a table kept by atomic replacements shows every document as this one does, it still does once a
      save commits here and replaces there. */
  lemma CommitIsReplace(t: Table, s: nat, table: seq<ChunkStore.StoredRow>, d: DocumentId)
    requires Inv(t) && Enabled(t, Commit(s)) && Visible(t, d) == Contents(table, d)
    ensures var me := t.live[s];
      Visible(Step(t, Commit(s)), d) == Contents(ChunkStore.Replace(table, me.document, me.rows), d)
  {
    hide Inv, ChunkStore.Replace, ChunkStore.RowsOf, ChunkStore.StoredAll;
    var me, after := t.live[s], Step(t, Commit(s));
    CommittedAfter(t, s, d);
    VisibleIsOf(t, d);
    VisibleIsOf(after, d);
    ChunkStore.SaveReplaces(table, me.document, me.rows, d);
    BatchShows(s, d, me.rows);
  }

  // ---- Of overlapping saves one commits ----

  /** The save has started, has inserted nothing, and the committed rows of its document are none that its
      DELETE found. */
  ghost predicate Doomed(t: Table, s: nat) {
    && s in t.live && t.live[s].started && t.live[s].inserted == 0
    && Of(t.committed, t.live[s].document) != {} && Of(t.committed, t.live[s].document) !! t.live[s].seen
  }

  lemma CommitDoomsOthers(t: Table, s: nat, u: nat)
    requires Inv(t) && Enabled(t, Commit(s)) && u in t.live && u != s
    requires t.live[u].document == t.live[s].document && t.live[u].started
    ensures Doomed(Step(t, Commit(s)), u)
  {
    var me := t.live[s];
    assert BooksOk(t, s) && BooksOk(t, u) && Apart(t, s, u) && Numbered(t.begun[s].1);
    CommittedAfter(t, s, me.document);
    assert Tuple(s, me.document, me.rows[0]) in Batch(s, me.document, me.rows);
  }

  lemma DoomedIsStuck(t: Table, s: nat)
    requires Inv(t) && Doomed(t, s)
    ensures !Enabled(t, InsertRow(s)) && !Enabled(t, Commit(s))
  {
    var me := t.live[s];
    assert BooksOk(t, s) && Numbered(t.begun[s].1);
    var first := HasFirst(t, Of(t.committed, me.document), me.document);
    assert first !in me.gone;
    assert me.rows[0].index == 0;
  }

  /** A doomed save stays so until it aborts. */
  lemma DoomedStays(t: Table, s: nat, e: Event)
    requires Inv(t) && Doomed(t, s) && Enabled(t, e) && e != Abort(s)
    ensures Doomed(Step(t, e), s)
  {
    DoomedIsStuck(t, s);
    assert BooksOk(t, s);
    if e.Commit? {
      var me := t.live[e.save];
      CommittedAfter(t, e.save, t.live[s].document);
      assert BooksOk(t, e.save) && Numbered(t.begun[e.save].1);
      assert Tuple(e.save, me.document, me.rows[0]) in Batch(e.save, me.document, me.rows);
    }
  }

  /** The save can no longer commit. */
  ghost predicate Lost(t: Table, s: nat) {
    Doomed(t, s) || (s in t.begun && s !in t.live && s !in t.done)
  }

  ghost predicate Overlap(t: Table, s: nat, u: nat) {
    && s in t.live && u in t.live && s != u && t.live[s].document == t.live[u].document
    && t.live[s].started && t.live[u].started
  }

  lemma LostStays(t: Table, s: nat, e: Event)
    requires Inv(t) && Lost(t, s) && Enabled(t, e)
    ensures Lost(Step(t, e), s)
  {
    if Doomed(t, s) {
      assert BooksOk(t, s);
      if e != Abort(s) {
        DoomedStays(t, s, e);
      }
    }
  }

  lemma OverlapOrLost(t: Table, s: nat, u: nat, e: Event)
    requires Inv(t) && Overlap(t, s, u) && Enabled(t, e)
    ensures var after := Step(t, e); Overlap(after, s, u) || Lost(after, s) || Lost(after, u)
  {
    assert BooksOk(t, s) && BooksOk(t, u);
    if e == Commit(s) {
      CommitDoomsOthers(t, s, u);
    } else if e == Commit(u) {
      CommitDoomsOthers(t, u, s);
    }
  }

  lemma {:induction false} OneIsLost(t: Table, s: nat, u: nat, events: seq<Event>)
    requires Inv(t) && (Overlap(t, s, u) || Lost(t, s) || Lost(t, u))
    ensures var after := Execute(t, events); Overlap(after, s, u) || Lost(after, s) || Lost(after, u)
    decreases |events|
  {
    hide Inv, Enabled, Step, Overlap, Lost;
    if events == [] {
    } else if Enabled(t, events[0]) {
      var e := events[0];
      StepKeepsInv(t, e);
      if Overlap(t, s, u) {
        OverlapOrLost(t, s, u, e);
      } else if Lost(t, s) {
        LostStays(t, s, e);
      } else {
        LostStays(t, u, e);
      }
      OneIsLost(Step(t, e), s, u, events[1..]);
    } else {
      OneIsLost(t, s, u, events[1..]);
    }
  }

  /** Two saves of a document that have both started their DELETE before either committed never both
      commit, whatever happens from then on. */
  lemma OverlappingSavesNeverBothCommit(before: seq<Event>, after: seq<Event>, s: nat, u: nat)
    requires Overlap(Execute(EMPTY, before), s, u)
    ensures var t := Execute(Execute(EMPTY, before), after); !(s in t.done && u in t.done)
  {
    EmptyOk();
    ExecuteKeepsInv(EMPTY, before);
    var t := Execute(EMPTY, before);
    ExecuteKeepsInv(t, after);
    OneIsLost(t, s, u, after);
    LiveIsNotDone(Execute(t, after));
  }

  lemma LiveIsNotDone(t: Table)
    requires Inv(t)
    ensures forall s | s in t.live :: s !in t.done
  {
    forall s | s in t.live ensures s !in t.done {
      assert BooksOk(t, s);
    }
  }

  // ---- A save with nobody else at work can commit ----

  /** No other save is in progress, and the committed rows of the document are ones its DELETE found. */
  ghost predicate Alone(t: Table, s: nat) {
    && s in t.live && (forall u | u in t.live :: u == s) && t.live[s].inserted <= |t.live[s].rows|
    && (t.live[s].started ==> Of(t.committed, t.live[s].document) <= t.live[s].seen)
  }

  lemma PlaceIsFree(t: Table, s: nat)
    requires Inv(t) && Alone(t, s) && t.live[s].started && t.live[s].left == {}
    requires t.live[s].inserted < |t.live[s].rows|
    ensures !PlaceHeld(t, s)
  {
    var me := t.live[s];
    assert BooksOk(t, s);
    forall r | r in t.committed && r.document == me.document ensures r in me.gone {
      assert r in Of(t.committed, me.document);
    }
  }

  lemma ExecuteCons(t: Table, e: Event, rest: seq<Event>)
    requires Enabled(t, e)
    ensures Execute(t, [e] + rest) == Execute(Step(t, e), rest)
  {
    assert ([e] + rest)[1..] == rest;
  }

  /** How much a save has yet to do. */
  function Ahead(save: Save): nat {
    |save.left| + if save.inserted < |save.rows| then |save.rows| - save.inserted else 0
  }

  ghost predicate Ready(t: Table, s: nat) {
    s in t.live && t.live[s].started && t.live[s].left == {} && t.live[s].inserted == |t.live[s].rows|
  }

  /** The step a lone save can take next: it starts, passes a row it found, or inserts one. */
  lemma AloneMoves(t: Table, s: nat) returns (e: Event)
    requires Inv(t) && Alone(t, s) && !Ready(t, s)
    ensures Enabled(t, e) && Alone(Step(t, e), s)
    ensures Step(t, e).live[s].started
    ensures t.live[s].started ==> Ahead(Step(t, e).live[s]) < Ahead(t.live[s])
  {
    hide Inv, PlaceHeld;
    var me := t.live[s];
    if !me.started {
      e := StartDelete(s);
    } else if r :| r in me.left {
      e := if r in t.committed then DeleteRow(s, r) else SkipRow(s, r);
      LoneRow(t, s, r);
    } else {
      PlaceIsFree(t, s);
      e := InsertRow(s);
    }
  }

  lemma LoneRow(t: Table, s: nat, r: Tuple)
    requires Alone(t, s) && r in t.live[s].left
    ensures forall u | u in t.live && u != s :: r !in t.live[u].gone
    ensures |t.live[s].left - {r}| < |t.live[s].left|
  {
  }

  lemma {:induction false} AloneCommits(t: Table, s: nat) returns (events: seq<Event>)
    requires Inv(t) && Alone(t, s)
    ensures s in Execute(t, events).done
    decreases if t.live[s].started then 0 else 1, Ahead(t.live[s])
  {
    hide Execute, Inv, Step, Alone, Enabled, Ahead;
    assert s in t.live by {
      AloneIsLive(t, s);
    }
    if Ready(t, s) {
      ReadyCommits(t, s);
      events := [Commit(s)];
      ExecuteCons(t, Commit(s), []);
      ExecuteNothing(Step(t, Commit(s)));
      assert [Commit(s)] + [] == [Commit(s)];
    } else {
      var e := AloneMoves(t, s);
      StepKeepsInv(t, e);
      AloneIsLive(Step(t, e), s);
      var rest := AloneCommits(Step(t, e), s);
      events := [e] + rest;
      ExecuteCons(t, e, rest);
    }
  }

  lemma AloneIsLive(t: Table, s: nat)
    requires Alone(t, s)
    ensures s in t.live
  {
  }

  lemma ReadyCommits(t: Table, s: nat)
    requires Ready(t, s)
    ensures Enabled(t, Commit(s)) && s in Step(t, Commit(s)).done
  {
  }

  lemma ExecuteNothing(t: Table)
    ensures Execute(t, []) == t
  {
  }

  /** Whatever has happened, once no save is in progress a new one can still commit. */
  lemma NewSaveCanCommit(before: seq<Event>, s: nat, d: DocumentId, rows: seq<Row>) returns (events: seq<Event>)
    requires Execute(EMPTY, before).live == map[] && s !in Execute(EMPTY, before).begun && Numbered(rows)
    ensures s in Execute(Execute(EMPTY, before), [Begin(s, d, rows)] + events).done
  {
    hide Execute;
    EmptyOk();
    ExecuteKeepsInv(EMPTY, before);
    var t := Execute(EMPTY, before);
    StepKeepsInv(t, Begin(s, d, rows));
    events := AloneCommits(Step(t, Begin(s, d, rows)), s);
    ExecuteCons(t, Begin(s, d, rows), events);
  }
}
