/** Message listing: the conversation repository, and the walk a client makes over a conversation by
    following nextCursor while new messages keep arriving. */
module Conversations {
  import opened Outcomes
  import opened Pagination

  datatype Message = Message(id: string, conversationId: string, content: string)

  datatype Listing = Offset(data: seq<Message>, meta: OffsetMeta) | Cursor(page: CursorPage<Message>)

  datatype ListError = NegativeSkip

  /** The messages of a conversation, oldest first. */
  function LogOf(rows: seq<Message>, conversation: string): seq<Message> {
    if rows == [] then []
    else if rows[0].conversationId == conversation then [rows[0]] + LogOf(rows[1..], conversation)
    else LogOf(rows[1..], conversation)
  }

  /** Ids are non-empty and, as a primary key, unique. */
  ghost predicate Proper(log: seq<Message>) {
    && (forall i | 0 <= i < |log| :: log[i].id != "")
    && (forall i, j | 0 <= i < j < |log| :: log[i].id != log[j].id)
  }

  function Find(log: seq<Message>, id: string): (r: Option<nat>)
    ensures r.Some? ==> r.value < |log| && log[r.value].id == id
    ensures r.None? ==> forall i | 0 <= i < |log| :: log[i].id != id
  {
    if log == [] then None
    else if log[0].id == id then Some(0)
    else
      match Find(log[1..], id)
      case None => None
      case Some(i) => Some(i + 1)
  }

  /** findMany with a cursor and skip 1: what follows the cursor row, nothing if there is no such row. */
  function After(log: seq<Message>, cursorId: string, take: nat): (r: seq<Message>)
    ensures forall m | m in r :: m in log
  {
    match Find(log, cursorId)
    case None => []
    case Some(i) => Slice(log, i + 1, take)
  }

  /** The listMessages of the repository. */
  function ListRows(log: seq<Message>, skip: Option<int>, take: nat, cursorId: string): (r: Result<seq<Message>,
      ListError>)
    ensures r.Ok? ==> forall m | m in r.value :: m in log
    ensures r.Err? ==> cursorId == "" && skip.Some? && skip.value < 0
  {
    if cursorId != "" then Ok(After(log, cursorId, take))
    else if skip.None? then Ok(Slice(log, 0, take))
    else if skip.value < 0 then Err(NegativeSkip)
    else Ok(Slice(log, skip.value, take))
  }

  /** One request of cursor pagination; "" stands for no cursor. */
  function CursorRequest(log: seq<Message>, cursor: string, limit: nat): CursorPage<Message>
  {
    var decoded := if cursor != "" then DecodeCursor(cursor) else "";
    BuildCursorPagination(ListRows(log, None, limit + 1, decoded).value, limit, (m: Message) => m.id)
  }

  /** The page number of an offset listing: parseInt(page) || 1, so a negative page stays negative. */
  function OffsetPage(page: Option<int>): int {
    if page.None? || page.value == 0 then 1 else page.value
  }

  /** The listMessages of the service; pageGiven says that the query has a page parameter. */
  function Respond(log: seq<Message>, q: Query, pageGiven: bool): Result<Listing, ListError>
  {
    var params := ParsePaginationParams(q);
    if pageGiven then
      var page := OffsetPage(q.page);
      match ListRows(log, Some((page - 1) * params.limit), params.limit, "")
      case Err(e) => Err(e)
      case Ok(data) => Ok(Offset(data, BuildOffsetPagination(|log|, page, params.limit)))
    else Ok(Cursor(CursorRequest(log, q.cursor, params.limit)))
  }

  class ConversationRepository {
    var rows: seq<Message>

    ghost predicate Valid()
      reads this
    {
      Proper(rows)
    }

    constructor ()
      ensures Valid() && rows == []
    {
      rows := [];
    }

    /** createMessage; the id is new. */
    method CreateMessage(id: string, conversationId: string, content: string)
      requires Valid() && id != "" && forall m | m in rows :: m.id != id
      modifies this
      ensures Valid()
      ensures forall c: string :: LogOf(rows, c) ==
                LogOf(old(rows), c) + if c == conversationId then [Message(id, conversationId, content)] else []
    {
      var message := Message(id, conversationId, content);
      forall c: string {
        LogAppends(rows, message, c);
      }
      assert forall i | 0 <= i < |rows| :: rows[i] in rows;
      rows := rows + [message];
    }

    method ListMessages(conversationId: string, skip: Option<int>, take: nat, cursorId: string)
      returns (r: Result<seq<Message>, ListError>)
      ensures r == ListRows(LogOf(rows, conversationId), skip, take, cursorId)
    {
      var log := LogOf(rows, conversationId);
      var from: int := 0;
      if cursorId != "" {
        var at := Find(log, cursorId);
        if at.None? {
          return Ok([]);
        }
        from := at.value + 1;
      } else if skip.Some? {
        from := skip.value;
      }
      if from < 0 {
        return Err(NegativeSkip);
      }
      r := Ok(Slice(log, from, take));
    }

    method CountMessages(conversationId: string) returns (n: nat)
      ensures n == |LogOf(rows, conversationId)|
    {
      n := 0;
      for i := 0 to |rows|
        invariant n == |LogOf(rows[..i], conversationId)|
      {
        LogAppends(rows[..i], rows[i], conversationId);
        assert rows[..i + 1] == rows[..i] + [rows[i]];
        if rows[i].conversationId == conversationId {
          n := n + 1;
        }
      }
      assert rows[..|rows|] == rows;
    }
  }

  /** The listMessages of the service, once the conversation is known to be the caller's. */
  method ListMessages(repository: ConversationRepository, conversationId: string, q: Query, pageGiven: bool)
    returns (r: Result<Listing, ListError>)
    ensures r == Respond(LogOf(repository.rows, conversationId), q, pageGiven)
  {
    var params := ParsePaginationParams(q);
    if pageGiven {
      var page := OffsetPage(q.page);
      var skip := (page - 1) * params.limit;
      var messages := repository.ListMessages(conversationId, Some(skip), params.limit, "");
      if messages.Err? {
        return Err(messages.error);
      }
      var total := repository.CountMessages(conversationId);
      return Ok(Offset(messages.value, BuildOffsetPagination(total, page, params.limit)));
    }
    var decodedCursor := if q.cursor != "" then DecodeCursor(q.cursor) else "";
    var rawMessages := repository.ListMessages(conversationId, None, params.limit + 1, decodedCursor);
    r := Ok(Cursor(BuildCursorPagination(rawMessages.value, params.limit, (m: Message) => m.id)));
  }

  lemma {:induction false} LogAppends(rows: seq<Message>, m: Message, conversation: string)
    ensures LogOf(rows + [m], conversation) ==
            LogOf(rows, conversation) + if m.conversationId == conversation then [m] else []
  {
    if rows == [] {
      assert rows + [m] == [m];
    } else {
      assert (rows + [m])[1..] == rows[1..] + [m];
      LogAppends(rows[1..], m, conversation);
    }
  }

  lemma {:induction false} LogMembers(rows: seq<Message>, conversation: string, m: Message)
    requires m in LogOf(rows, conversation)
    ensures m in rows
  {
    if rows[0] == m {
    } else {
      LogMembers(rows[1..], conversation, m);
    }
  }

  /** Each conversation's messages inherit distinct ids from the table. */
  lemma {:induction false} LogIsProper(rows: seq<Message>, conversation: string)
    requires Proper(rows)
    ensures Proper(LogOf(rows, conversation))
  {
    if rows == [] {
    } else {
      LogIsProper(rows[1..], conversation);
      var rest := LogOf(rows[1..], conversation);
      forall i | 0 <= i < |rest| ensures rest[i].id != rows[0].id {
        LogMembers(rows[1..], conversation, rest[i]);
      }
    }
  }

  // ---- Walking by cursor ----

  /** The requests of a client: one page per snapshot of the conversation, following nextCursor. */
  function Walk(logs: seq<seq<Message>>, cursor: string, limit: nat): (pages: seq<CursorPage<Message>>)
    ensures |pages| <= |logs| && (logs != [] ==> pages != [])
  {
    if logs == [] then []
    else
      var page := CursorRequest(logs[0], cursor, limit);
      [page] + if page.nextCursor.None? then [] else Walk(logs[1..], page.nextCursor.value, limit)
  }

  function Data(pages: seq<CursorPage<Message>>): seq<Message> {
    if pages == [] then [] else pages[0].data + Data(pages[1..])
  }

  /** Snapshots of one conversation, each extending the one before. */
  ghost predicate Growing(logs: seq<seq<Message>>) {
    && (forall l | l in logs :: Proper(l))
    && (forall i, j | 0 <= i < j < |logs| :: logs[i] <= logs[j])
  }

  /** The cursor once v messages have been seen. */
  function CursorAt(log: seq<Message>, v: nat): string
    requires v <= |log|
  {
    if v == 0 then "" else EncodeCursor(log[v - 1].id)
  }

  /** The cursor left after v messages finds exactly the messages after them. */
  lemma ResumesAfter(log: seq<Message>, v: nat, take: nat)
    requires Proper(log) && v <= |log|
    ensures var cursor := CursorAt(log, v);
      ListRows(log, None, take, if cursor != "" then DecodeCursor(cursor) else "") == Ok(Slice(log, v, take))
  {
    hide EncodeCursor, DecodeCursor, Slice;
    if v > 0 {
      assert log[v - 1] in log;
      CursorRoundTrip(log[v - 1].id);
      assert Find(log, log[v - 1].id) == Some(v - 1);
    }
  }

  lemma OnePage(log: seq<Message>, v: nat, limit: nat)
    requires Proper(log) && v <= |log| && limit > 0
    ensures var page := CursorRequest(log, CursorAt(log, v), limit);
      if v + limit < |log| then page == CursorPage(log[v..v + limit], true, Some(CursorAt(log, v + limit)), limit)
      else page == CursorPage(log[v..], false, None, limit)
  {
    hide EncodeCursor, DecodeCursor, ListRows, Proper;
    ResumesAfter(log, v, limit + 1);
    if v + limit < |log| {
      assert log[v..v + limit + 1][..limit] == log[v..v + limit];
    }
  }

  lemma SamePrefixCursor(log: seq<Message>, more: seq<Message>, v: nat)
    requires log <= more && v <= |log|
    ensures CursorAt(log, v) == CursorAt(more, v)
  {
  }

  /** Where a walk stands: all pages but the last are full and point on, and together with the v
      messages already seen they are a prefix of the latest snapshot, all of it once the walk ended. */
  ghost predicate WalkSound(logs: seq<seq<Message>>, pages: seq<CursorPage<Message>>, v: nat, limit: nat)
    requires 0 < |pages| <= |logs| && v <= |logs[|pages| - 1]|
  {
    var last, latest := pages[|pages| - 1], logs[|pages| - 1];
    && (forall i | 0 <= i < |pages| - 1 :: pages[i].nextCursor.Some? && |pages[i].data| == limit)
    && v + |Data(pages)| <= |latest| && Data(pages) == latest[v..v + |Data(pages)|]
    && (last.nextCursor.None? <==> v + |Data(pages)| == |latest|)
    && (last.nextCursor.Some? ==> |pages| == |logs| && |last.data| == limit)
  }

  lemma {:induction false} WalkFrom(logs: seq<seq<Message>>, v: nat, limit: nat)
    requires Growing(logs) && logs != [] && v <= |logs[0]| && limit > 0
    ensures var pages := Walk(logs, CursorAt(logs[0], v), limit);
      v <= |logs[|pages| - 1]| && WalkSound(logs, pages, v, limit)
    decreases |logs|
  {
    hide CursorRequest, CursorAt, Proper, WalkSound;
    var log := logs[0];
    OnePage(log, v, limit);
    var page := CursorRequest(log, CursorAt(log, v), limit);
    var pages := Walk(logs, CursorAt(log, v), limit);
    if page.nextCursor.None? || |logs| == 1 {
      assert pages == [page];
      WalkEnds(logs, page, v, limit);
    } else {
      var rest := logs[1..];
      GrowingTail(logs);
      assert log <= rest[0];
      SamePrefixCursor(log, rest[0], v + limit);
      WalkFrom(rest, v + limit, limit);
      var more := Walk(rest, CursorAt(rest[0], v + limit), limit);
      assert pages == [page] + more;
      WalkExtends(logs, page, more, v, limit);
    }
  }

  lemma WalkEnds(logs: seq<seq<Message>>, page: CursorPage<Message>, v: nat, limit: nat)
    requires logs != [] && v <= |logs[0]|
    requires if v + limit < |logs[0]| then page.data == logs[0][v..v + limit] && page.nextCursor.Some? && |logs| == 1
             else page.data == logs[0][v..] && page.nextCursor.None?
    ensures WalkSound(logs, [page], v, limit)
  {
    assert Data([page]) == page.data + Data([]);
  }

  lemma GrowingTail(logs: seq<seq<Message>>)
    requires Growing(logs) && logs != []
    ensures Growing(logs[1..])
  {
    forall i, j | 0 <= i < j < |logs[1..]| ensures logs[1..][i] <= logs[1..][j] {
      assert logs[i + 1] <= logs[j + 1];
    }
  }

  lemma WalkExtends(logs: seq<seq<Message>>, page: CursorPage<Message>, more: seq<CursorPage<Message>>, v: nat,
      limit: nat)
    requires Growing(logs) && 0 < |more| < |logs| && v + limit < |logs[0]|
    requires page.nextCursor.Some? && page.data == logs[0][v..v + limit]
    requires v + limit <= |logs[1..][|more| - 1]| && WalkSound(logs[1..], more, v + limit, limit)
    ensures v <= |logs[|more|]| && WalkSound(logs, [page] + more, v, limit)
  {
    hide Proper;
    var pages, latest := [page] + more, logs[|more|];
    assert logs[1..][|more| - 1] == latest;
    assert logs[0] <= latest;
    assert pages[1..] == more;
    assert Data(pages) == page.data + Data(more);
    assert page.data == latest[v..v + limit];
    forall i | 0 <= i < |pages| - 1 ensures pages[i].nextCursor.Some? && |pages[i].data| == limit {
      if i > 0 {
        assert pages[i] == more[i - 1];
      }
    }
    assert pages[|pages| - 1] == more[|more| - 1];
  }

  /** Following nextCursor from the first page visits each message once, in order, while messages are
      appended: the pages together are always a prefix of the latest snapshot, and nextCursor is null
      exactly on the last page, when they are all of it. */
  lemma WalkVisitsEachOnce(logs: seq<seq<Message>>, limit: nat)
    requires Growing(logs) && logs != [] && limit > 0
    ensures var pages := Walk(logs, "", limit);
      && Data(pages) <= logs[|pages| - 1]
      && (forall i | 0 <= i < |pages| - 1 :: pages[i].nextCursor.Some?)
      && (pages[|pages| - 1].nextCursor.None? <==> Data(pages) == logs[|pages| - 1])
      && (pages[|pages| - 1].nextCursor.Some? ==> |pages| == |logs|)
  {
    WalkFrom(logs, 0, limit);
  }

  function Repeat<T>(x: T, times: nat): (r: seq<T>)
    ensures |r| == times && forall y | y in r :: y == x
  {
    seq(times, _ => x)
  }

  lemma {:induction false} FixedFrom(log: seq<Message>, v: nat, limit: nat, times: nat)
    requires Proper(log) && v <= |log| && limit > 0
    ensures |Walk(Repeat(log, times), CursorAt(log, v), limit)|
         == if times == 0 || |log| == v then (if times == 0 then 0 else 1) else Min(times, PageCount(|log| - v, limit))
    decreases times
  {
    hide CursorRequest, CursorAt, Proper, PageCount;
    if times == 0 {
    } else {
      OnePage(log, v, limit);
      assert Repeat(log, times)[1..] == Repeat(log, times - 1);
      if v + limit < |log| {
        FixedFrom(log, v + limit, limit, times - 1);
        OneMorePage(|log| - v - limit, limit);
        FewPages(|log| - v - limit, limit);
      } else if v < |log| {
        FewPages(|log| - v, limit);
      }
    }
  }

  function Min(a: nat, b: nat): nat {
    if a < b then a else b
  }

  lemma OneMorePage(n: nat, limit: nat)
    requires 0 < limit
    ensures PageCount(n + limit, limit) == PageCount(n, limit) + 1
  {
    hide PageCount;
    var q := PageCount(n, limit);
    CeilingCovers(n, limit, q);
    CeilingCovers(n + limit, limit, q + 1);
    CeilingCovers(n + limit, limit, q);
    assert (q + 1) * limit == q * limit + limit;
    if q > 0 {
      CeilingCovers(n, limit, q - 1);
      assert (q - 1) * limit + limit == q * limit;
    }
  }

  lemma FewPages(n: nat, limit: nat)
    requires 0 < limit
    ensures PageCount(n, limit) <= n
    ensures 0 < n <= limit ==> PageCount(n, limit) == 1
    ensures PageCount(n, limit) == 0 <==> n == 0
  {
    hide PageCount;
    CeilingCovers(n, limit, n);
    CeilingCovers(n, limit, 1);
    CeilingCovers(n, limit, 0);
    assert n * limit >= n;
  }

  /** A conversation of n messages that does not change takes max(1, ceil(n / limit)) pages. */
  lemma PagesOfFixedLog(log: seq<Message>, limit: nat, times: nat)
    requires Proper(log) && limit > 0
    requires times > |log|
    ensures var pages := Walk(Repeat(log, times), "", limit);
      && |pages| == (if log == [] then 1 else PageCount(|log|, limit))
      && Data(pages) == log
  {
    hide CursorRequest, Proper, PageCount;
    FixedFrom(log, 0, limit, times);
    FewPages(|log|, limit);
    WalkVisitsEachOnce(Repeat(log, times), limit);
    var pages := Walk(Repeat(log, times), "", limit);
    assert Repeat(log, times)[|pages| - 1] in Repeat(log, times);
  }

  /** A cursor that names no message of the conversation gets an empty last page. */
  lemma UnknownCursor(log: seq<Message>, cursor: string, limit: nat)
    requires cursor != "" && DecodeCursor(cursor) != ""
    requires forall m | m in log :: m.id != DecodeCursor(cursor)
    ensures CursorRequest(log, cursor, limit) == CursorPage([], false, None, limit)
  {
    hide DecodeCursor, EncodeCursor;
    assert Find(log, DecodeCursor(cursor)).None?;
  }

  /** Offset listing fails exactly on a negative page, which the parameter check lets through. */
  lemma OffsetFailsOnNegativePage(log: seq<Message>, q: Query)
    ensures Respond(log, q, true).Err? <==> q.page.Some? && q.page.value < 0
  {
    hide Slice, BuildOffsetPagination, ParsePaginationParams, After;
    SignOfSkip(OffsetPage(q.page), ParsePaginationParams(q).limit);
  }

  lemma SignOfSkip(page: int, limit: nat)
    requires limit >= 1
    ensures (page - 1) * limit < 0 <==> page < 1
  {
  }

  /** The messages that the offset pages 1 to p answer with, one after the other. */
  function Leafed(log: seq<Message>, limit: Option<int>, p: nat): seq<Message> {
    if p == 0 then []
    else
      var answer := Respond(log, Query(limit, Some(p), ""), true);
      Leafed(log, limit, p - 1) + if answer.Ok? && answer.value.Offset? then answer.value.data else []
  }

  lemma LeafAnswer(log: seq<Message>, limit: Option<int>, p: nat)
    requires p >= 1
    ensures var q := Query(limit, Some(p), "");
      var size := ParsePaginationParams(q).limit;
      Respond(log, q, true)
      == Ok(Offset(Slice(log, (p - 1) * size, size), BuildOffsetPagination(|log|, p, size)))
  {
    hide Slice, BuildOffsetPagination;
    SignOfSkip(p, ParsePaginationParams(Query(limit, Some(p), "")).limit);
  }

  lemma SameSize(limit: Option<int>, p: nat, q: nat)
    ensures ParsePaginationParams(Query(limit, Some(p), "")).limit
         == ParsePaginationParams(Query(limit, Some(q), "")).limit
  {
  }

  /** Offset pages 1 to p together are the first p * limit messages, and each says how many there are in
      all and which page of what size it is. */
  lemma {:induction false} OffsetPagesLeafThrough(log: seq<Message>, limit: Option<int>, p: nat)
    ensures var size := ParsePaginationParams(Query(limit, Some(p), "")).limit;
      && Leafed(log, limit, p) == (if p * size <= |log| then log[..p * size] else log)
      && (p >= 1 ==>
            && var answer := Respond(log, Query(limit, Some(p), ""), true);
            && answer.Ok? && answer.value.Offset?
            && answer.value.meta.total == |log| && answer.value.meta.page == p && answer.value.meta.limit == size)
  {
    hide Slice, Respond, ParsePaginationParams;
    var size := ParsePaginationParams(Query(limit, Some(p), "")).limit;
    if p == 0 {
      assert 0 * size == 0;
    } else {
      OffsetPagesLeafThrough(log, limit, p - 1);
      SameSize(limit, p, p - 1);
      LeafAnswer(log, limit, p);
      var before := (p - 1) * size;
      assert p * size == before + size;
      WholePages(log, before, size);
    }
  }

  lemma WholePages(log: seq<Message>, before: nat, size: nat)
    ensures (if before <= |log| then log[..before] else log) + Slice(log, before, size)
         == if before + size <= |log| then log[..before + size] else log
  {
  }
}
