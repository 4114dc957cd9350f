/** The context selector: one greedy pass over ranked candidates with a chunk cap, a token budget,
    two kinds of deduplication and a diversity rule. The loop keeps sets, a map and a running total;
    the specification recomputes everything from the positions picked so far. */
module ContextSelector {
  import opened JsText
  import opened Outcomes

  /** A reranked candidate, or null. Empty ids stand for missing ones. */
  datatype Candidate =
    | Null
    | Chunk(chunkId: string, documentId: string, content: Text, score: real, vectorScore: Option<real>,
            pageNumber: Option<int>, chunkIndex: int, metadata: Option<string>)

  datatype Selected = Selected(chunkId: string, documentId: string, content: Text, score: real, vectorScore: real,
                               pageNumber: Option<int>, chunkIndex: int, metadata: string)

  datatype Selection = Selection(chunks: seq<Selected>, totalTokens: nat, selectedCount: nat, truncated: bool)

  datatype SelectError = NullCandidate

  /** The limits in force once the defaults are applied, and String.prototype.toLowerCase, which may
      be any function. */
  datatype Config = Config(maxChunks: int, maxTokens: int, lower: Text -> Text)

  predicate HasContent(c: Candidate) {
    c.Chunk? && c.content != []
  }

  /** The text two chunks are compared by. */
  function Snippet(cfg: Config, content: Text): Text {
    var folded := cfg.lower(Trim(content));
    if |folded| > 150 then folded[..150] else folded
  }

  function Cost(content: Text): nat {
    (|content| + 3) / 4 + 20
  }

  const UNKNOWN: string := "unknown"

  function DocOf(c: Candidate): string
    requires c.Chunk?
  {
    if c.documentId == "" then UNKNOWN else c.documentId
  }

  function View(c: Candidate): Selected
    requires c.Chunk?
  {
    Selected(c.chunkId, c.documentId, c.content, c.score, c.vectorScore.GetOr(c.score), c.pageNumber, c.chunkIndex,
             c.metadata.GetOr("{}"))
  }

  // ---- The specification: everything recomputed from the picked positions ----

  /** Positions of candidates that have content. */
  predicate Indices(cands: seq<Candidate>, picked: seq<nat>) {
    forall a | 0 <= a < |picked| :: picked[a] < |cands| && HasContent(cands[picked[a]])
  }

  predicate IdPicked(cands: seq<Candidate>, picked: seq<nat>, id: string)
    requires Indices(cands, picked)
  {
    id != "" && exists a | 0 <= a < |picked| :: cands[picked[a]].chunkId == id
  }

  predicate SnippetPicked(cfg: Config, cands: seq<Candidate>, picked: seq<nat>, text: Text)
    requires Indices(cands, picked)
  {
    exists a | 0 <= a < |picked| :: Snippet(cfg, cands[picked[a]].content) == text
  }

  function Tokens(cands: seq<Candidate>, picked: seq<nat>): nat
    requires Indices(cands, picked)
  {
    if picked == [] then 0
    else Tokens(cands, picked[..|picked| - 1]) + Cost(cands[picked[|picked| - 1]].content)
  }

  function DocCount(cands: seq<Candidate>, picked: seq<nat>, doc: string): nat
    requires Indices(cands, picked)
  {
    if picked == [] then 0
    else DocCount(cands, picked[..|picked| - 1], doc) + if DocOf(cands[picked[|picked| - 1]]) == doc then 1 else 0
  }

  /** The look-ahead slices from the number of chunks selected, not from the current position. A
      null candidate met before an answer is found makes it throw. */
  function LookAhead(cands: seq<Candidate>, picked: seq<nat>, doc: string, from: nat): Result<bool, SelectError>
    requires Indices(cands, picked)
    decreases |cands| - from
  {
    if from >= |cands| then Ok(false)
    else if cands[from].Null? then Err(NullCandidate)
    else if cands[from].documentId != "" && cands[from].documentId != doc
            && !IdPicked(cands, picked, cands[from].chunkId)
      then Ok(true)
    else LookAhead(cands, picked, doc, from + 1)
  }

  datatype Ruling = Take | NoContent | SameId | SameText | Diversity | CapReached | BudgetSpent | Throws

  /** What becomes of candidate i once `picked` are selected, in the order of the source's checks. */
  function Judge(cfg: Config, cands: seq<Candidate>, picked: seq<nat>, i: nat): Ruling
    requires Indices(cands, picked) && i < |cands|
  {
    var c := cands[i];
    if |picked| >= cfg.maxChunks then CapReached
    else if !HasContent(c) then NoContent
    else if IdPicked(cands, picked, c.chunkId) then SameId
    else if SnippetPicked(cfg, cands, picked, Snippet(cfg, c.content)) then SameText
    else if picked != [] && Tokens(cands, picked) + Cost(c.content) > cfg.maxTokens then BudgetSpent
    else if DocCount(cands, picked, DocOf(c)) >= 3 && |cands| > 5 then
      match LookAhead(cands, picked, DocOf(c), |picked|)
      case Err(_) => Throws
      case Ok(other) => if other then Diversity else Take
    else Take
  }

  /** The greedy pass from candidate i on: the final picks and whether it stopped early. */
  function Greedy(cfg: Config, cands: seq<Candidate>, picked: seq<nat>, i: nat): Result<(seq<nat>, bool), SelectError>
    requires Indices(cands, picked)
    decreases |cands| - i
  {
    if i >= |cands| then Ok((picked, false))
    else
      match Judge(cfg, cands, picked, i)
      case CapReached => Ok((picked, true))
      case BudgetSpent => Ok((picked, true))
      case Throws => Err(NullCandidate)
      case Take => Greedy(cfg, cands, picked + [i], i + 1)
      case _ => Greedy(cfg, cands, picked, i + 1)
  }

  function Views(cands: seq<Candidate>, picked: seq<nat>): (s: seq<Selected>)
    requires Indices(cands, picked)
    ensures |s| == |picked|
  {
    seq(|picked|, a requires 0 <= a < |picked| => View(cands[picked[a]]))
  }

  function SelectSpec(cfg: Config, cands: seq<Candidate>): Result<Selection, SelectError> {
    match Greedy(cfg, cands, [], 0)
    case Err(e) => Err(e)
    case Ok(r) =>
      GreedyIndices(cfg, cands, [], 0);
      Ok(Selection(Views(cands, r.0), Tokens(cands, r.0), |r.0|, r.1))
  }

  lemma {:induction false} GreedyIndices(cfg: Config, cands: seq<Candidate>, picked: seq<nat>, i: nat)
    requires Indices(cands, picked)
    ensures var r := Greedy(cfg, cands, picked, i); r.Ok? ==> Indices(cands, r.value.0)
    decreases |cands| - i
  {
    if i >= |cands| {
    } else {
      var ruling := Judge(cfg, cands, picked, i);
      if ruling == Take {
        GreedyIndices(cfg, cands, picked + [i], i + 1);
      } else if !ruling.CapReached? && !ruling.BudgetSpent? && !ruling.Throws? {
        GreedyIndices(cfg, cands, picked, i + 1);
      }
    }
  }

  // ---- The loop ----

  /** The loop's own books agree with what the picks say. */
  ghost predicate Books(cfg: Config, cands: seq<Candidate>, picked: seq<nat>, seenContents: set<Text>,
                        seenIds: set<string>, docCounts: map<string, nat>, tokens: nat)
  {
    && Indices(cands, picked)
    && (forall t :: t in seenContents <==> SnippetPicked(cfg, cands, picked, t))
    && "" !in seenIds && (forall id :: id in seenIds <==> IdPicked(cands, picked, id))
    && (forall d :: DocCount(cands, picked, d) == if d in docCounts then docCounts[d] else 0)
    && tokens == Tokens(cands, picked)
  }

  lemma SnippetAdd(cfg: Config, cands: seq<Candidate>, picked: seq<nat>, i: nat, text: Text)
    requires Indices(cands, picked) && i < |cands| && HasContent(cands[i])
    ensures Indices(cands, picked + [i])
    ensures SnippetPicked(cfg, cands, picked + [i], text)
         <==> SnippetPicked(cfg, cands, picked, text) || text == Snippet(cfg, cands[i].content)
  {
    hide Snippet;
    var more := picked + [i];
    if a :| 0 <= a < |picked| && Snippet(cfg, cands[picked[a]].content) == text {
      assert more[a] == picked[a];
    }
    assert more[|picked|] == i;
  }

  lemma IdAdd(cands: seq<Candidate>, picked: seq<nat>, i: nat, id: string)
    requires Indices(cands, picked) && i < |cands| && HasContent(cands[i])
    ensures Indices(cands, picked + [i])
    ensures IdPicked(cands, picked + [i], id) <==> IdPicked(cands, picked, id) || (id != "" && id == cands[i].chunkId)
  {
    var more := picked + [i];
    if a :| 0 <= a < |picked| && cands[picked[a]].chunkId == id {
      assert more[a] == picked[a];
    }
    assert more[|picked|] == i;
  }

  lemma SumsAdd(cands: seq<Candidate>, picked: seq<nat>, i: nat, doc: string)
    requires Indices(cands, picked) && i < |cands| && HasContent(cands[i])
    ensures Indices(cands, picked + [i])
    ensures Tokens(cands, picked + [i]) == Tokens(cands, picked) + Cost(cands[i].content)
    ensures DocCount(cands, picked + [i], doc) == DocCount(cands, picked, doc) + if DocOf(cands[i]) == doc then 1 else 0
  {
    assert (picked + [i])[..|picked|] == picked;
  }

  lemma BooksAdd(cfg: Config, cands: seq<Candidate>, picked: seq<nat>, seenContents: set<Text>,
                 seenIds: set<string>, docCounts: map<string, nat>, tokens: nat, i: nat)
    requires Books(cfg, cands, picked, seenContents, seenIds, docCounts, tokens)
    requires i < |cands| && HasContent(cands[i])
    ensures var c := cands[i];
      var count := if DocOf(c) in docCounts then docCounts[DocOf(c)] else 0;
      Books(cfg, cands, picked + [i], seenContents + {Snippet(cfg, c.content)},
            if c.chunkId != "" then seenIds + {c.chunkId} else seenIds, docCounts[DocOf(c) := count + 1],
            tokens + Cost(c.content))
  {
    hide SnippetPicked, IdPicked, Tokens, DocCount, Snippet, Cost, Indices;
    SumsAdd(cands, picked, i, "");
    forall text {
      SnippetAdd(cfg, cands, picked, i, text);
    }
    forall id {
      IdAdd(cands, picked, i, id);
    }
    forall doc {
      SumsAdd(cands, picked, i, doc);
    }
  }

  /** rankedChunks.slice(selectedChunks.length).some(...) */
  method SeesOtherDocument(cands: seq<Candidate>, ghost picked: seq<nat>, seenIds: set<string>, doc: string, from: nat)
    returns (r: Result<bool, SelectError>)
    requires Indices(cands, picked) && forall id :: id in seenIds <==> IdPicked(cands, picked, id)
    requires from <= |cands|
    ensures r == LookAhead(cands, picked, doc, from)
  {
    for j := from to |cands|
      invariant LookAhead(cands, picked, doc, from) == LookAhead(cands, picked, doc, j)
    {
      var c := cands[j];
      if c.Null? {
        return Err(NullCandidate);
      }
      if c.documentId != "" && c.documentId != doc && c.chunkId !in seenIds {
        return Ok(true);
      }
    }
    r := Ok(false);
  }

  lemma BooksStart(cfg: Config, cands: seq<Candidate>)
    ensures Books(cfg, cands, [], {}, {}, map[], 0)
  {
  }

  predicate Passed(ruling: Ruling) {
    ruling.NoContent? || ruling.SameId? || ruling.SameText? || ruling.Diversity?
  }

  predicate Stopping(ruling: Ruling) {
    ruling.CapReached? || ruling.BudgetSpent?
  }

  lemma GreedyStep(cfg: Config, cands: seq<Candidate>, picked: seq<nat>, i: nat)
    requires Indices(cands, picked) && i < |cands|
    ensures var ruling, now := Judge(cfg, cands, picked, i), Greedy(cfg, cands, picked, i);
      && (Passed(ruling) ==> now == Greedy(cfg, cands, picked, i + 1))
      && (Stopping(ruling) ==> now == Ok((picked, true)))
      && (ruling.Throws? ==> now == Err(NullCandidate))
      && (ruling.Take? ==> HasContent(cands[i]) && Indices(cands, picked + [i])
                           && now == Greedy(cfg, cands, picked + [i], i + 1))
  {
    hide SnippetPicked, IdPicked, Tokens, DocCount, Snippet, Cost, LookAhead;
  }

  lemma NothingToSelect(cfg: Config)
    ensures SelectSpec(cfg, []) == Ok(Selection([], 0, 0, false))
  {
    assert Views([], []) == [];
  }

  /** selectContext. */
  method SelectContext(cfg: Config, cands: seq<Candidate>) returns (r: Result<Selection, SelectError>)
    ensures r == SelectSpec(cfg, cands)
  {
    hide SnippetPicked, IdPicked, Tokens, DocCount, Snippet, Cost, LookAhead, Greedy, Indices;
    if cands == [] {
      NothingToSelect(cfg);
      return Ok(Selection([], 0, 0, false));
    }
    var seenContents: set<Text>, seenIds: set<string> := {}, {};
    var docCounts: map<string, nat> := map[];
    var selected: seq<Selected>, tokens: nat, truncated := [], 0, false;
    ghost var picked: seq<nat> := [];
    BooksStart(cfg, cands);
    var i := 0;
    while i < |cands|
      invariant 0 <= i <= |cands| && !truncated
      invariant Books(cfg, cands, picked, seenContents, seenIds, docCounts, tokens)
      invariant |picked| <= i && selected == Views(cands, picked)
      invariant Greedy(cfg, cands, [], 0) == Greedy(cfg, cands, picked, i)
    {
      var chunk := cands[i];
      GreedyStep(cfg, cands, picked, i);
      if |selected| >= cfg.maxChunks {
        truncated := true;
        break;
      }
      i := i + 1;
      if chunk.Null? || chunk.content == [] {
        continue;
      }
      if chunk.chunkId != "" && chunk.chunkId in seenIds {
        continue;
      }
      var snippet := Snippet(cfg, chunk.content);
      if snippet in seenContents {
        continue;
      }
      var chunkTokens := Cost(chunk.content);
      if |selected| > 0 && tokens + chunkTokens > cfg.maxTokens {
        truncated := true;
        break;
      }
      var docId := DocOf(chunk);
      var countForDoc := if docId in docCounts then docCounts[docId] else 0;
      if countForDoc >= 3 && |cands| > 5 {
        var other := SeesOtherDocument(cands, picked, seenIds, docId, |selected|);
        if other.Err? {
          return Err(NullCandidate);
        }
        if other.value {
          continue;
        }
      }
      BooksAdd(cfg, cands, picked, seenContents, seenIds, docCounts, tokens, i - 1);
      if chunk.chunkId != "" {
        seenIds := seenIds + {chunk.chunkId};
      }
      seenContents := seenContents + {snippet};
      docCounts := docCounts[docId := countForDoc + 1];
      tokens := tokens + chunkTokens;
      selected := selected + [View(chunk)];
      picked := picked + [i - 1];
    }
    GreedyEnd(cfg, cands, picked);
    assert Greedy(cfg, cands, [], 0) == Ok((picked, truncated));
    r := Ok(Selection(selected, tokens, |selected|, truncated));
  }

  lemma GreedyEnd(cfg: Config, cands: seq<Candidate>, picked: seq<nat>)
    requires Indices(cands, picked)
    ensures Greedy(cfg, cands, picked, |cands|) == Ok((picked, false))
  {
  }

  // ---- What the selection is ----

  /** Candidate j lies after the first `a` picks and before the next one, or before the end. */
  predicate InGap(picked: seq<nat>, a: nat, j: nat, stop: nat) {
    a <= |picked| && (a > 0 ==> picked[a - 1] < j) && j < if a < |picked| then picked[a] else stop
  }

  ghost predicate Increasing(picked: seq<nat>, stop: nat) {
    && (forall a | 0 <= a < |picked| :: picked[a] < stop)
    && (forall a, b | 0 <= a < b < |picked| :: picked[a] < picked[b])
  }

  ghost predicate PicksTaken(cfg: Config, cands: seq<Candidate>, picked: seq<nat>)
    requires Indices(cands, picked)
  {
    forall a | 0 <= a < |picked| :: Judge(cfg, cands, picked[..a], picked[a]) == Take
  }

  ghost predicate GapsPassed(cfg: Config, cands: seq<Candidate>, picked: seq<nat>, stop: nat)
    requires Indices(cands, picked) && stop <= |cands|
  {
    forall a: nat, j: nat {:trigger InGap(picked, a, j, stop)} | InGap(picked, a, j, stop) && j < |cands| ::
      Passed(Judge(cfg, cands, picked[..a], j))
  }

  /** Every candidate before `stop` accounted for: a pick was ruled in given the picks before it,
      any other candidate was passed over given the picks before it. */
  ghost predicate Explained(cfg: Config, cands: seq<Candidate>, picked: seq<nat>, stop: nat) {
    && Indices(cands, picked) && stop <= |cands|
    && Increasing(picked, stop)
    && PicksTaken(cfg, cands, picked)
    && GapsPassed(cfg, cands, picked, stop)
  }

  lemma ExplainedTake(cfg: Config, cands: seq<Candidate>, picked: seq<nat>, i: nat)
    requires Explained(cfg, cands, picked, i) && i < |cands| && Judge(cfg, cands, picked, i) == Take
    requires HasContent(cands[i])
    ensures Explained(cfg, cands, picked + [i], i + 1)
  {
    hide Judge;
    var more := picked + [i];
    forall a | 0 <= a < |more| ensures Judge(cfg, cands, more[..a], more[a]) == Take {
      assert more[..a] == picked[..a];
      assert picked[..|picked|] == picked;
    }
    forall a: nat, j: nat | InGap(more, a, j, i + 1) && j < |cands| ensures Passed(Judge(cfg, cands, more[..a], j)) {
      assert InGap(picked, a, j, i);
      assert more[..a] == picked[..a];
    }
  }

  lemma ExplainedPass(cfg: Config, cands: seq<Candidate>, picked: seq<nat>, i: nat)
    requires Explained(cfg, cands, picked, i) && i < |cands| && Passed(Judge(cfg, cands, picked, i))
    ensures Explained(cfg, cands, picked, i + 1)
  {
    hide Judge;
    forall a: nat, j: nat | InGap(picked, a, j, i + 1) && j < |cands|
      ensures Passed(Judge(cfg, cands, picked[..a], j))
    {
      if j == i && a == |picked| {
        assert picked[..a] == picked;
      } else {
        assert InGap(picked, a, j, i);
      }
    }
  }

  /** How a run ends at candidate `stop`: at the end of the list, by a limit, or by an exception. */
  predicate EndsWith(cfg: Config, cands: seq<Candidate>, picked: seq<nat>, stop: nat, result: Result<(seq<nat>, bool),
      SelectError>)
    requires Indices(cands, picked) && stop <= |cands|
  {
    if stop == |cands| then result == Ok((picked, false))
    else
      var ruling := Judge(cfg, cands, picked, stop);
      (Stopping(ruling) && result == Ok((picked, true))) || (ruling.Throws? && result == Err(NullCandidate))
  }

  lemma {:induction false} GreedyExplained(cfg: Config, cands: seq<Candidate>, picked: seq<nat>, i: nat)
    returns (end: seq<nat>, stop: nat)
    requires Explained(cfg, cands, picked, i)
    ensures Explained(cfg, cands, end, stop) && EndsWith(cfg, cands, end, stop, Greedy(cfg, cands, picked, i))
    decreases |cands| - i
  {
    hide Judge, Explained;
    end, stop := picked, i;
    assert Indices(cands, picked) && i <= |cands| by {
      ExplainedBounds(cfg, cands, picked, i);
    }
    if i == |cands| {
      GreedyEnd(cfg, cands, picked);
    } else {
      GreedyStep(cfg, cands, picked, i);
      if Judge(cfg, cands, picked, i).Take? {
        ExplainedTake(cfg, cands, picked, i);
        end, stop := GreedyExplained(cfg, cands, picked + [i], i + 1);
      } else if Passed(Judge(cfg, cands, picked, i)) {
        ExplainedPass(cfg, cands, picked, i);
        end, stop := GreedyExplained(cfg, cands, picked, i + 1);
      }
    }
  }

  lemma ExplainedBounds(cfg: Config, cands: seq<Candidate>, picked: seq<nat>, i: nat)
    requires Explained(cfg, cands, picked, i)
    ensures Indices(cands, picked) && i <= |cands|
  {
  }

  lemma {:induction false} ExplainedReached(cfg: Config, cands: seq<Candidate>, picked: seq<nat>, stop: nat)
    requires Explained(cfg, cands, picked, stop)
    ensures Greedy(cfg, cands, [], 0) == Greedy(cfg, cands, picked, stop)
    decreases stop
  {
    hide Judge, Greedy;
    if stop == 0 {
      assert picked == [];
    } else if picked != [] && picked[|picked| - 1] == stop - 1 {
      var before := picked[..|picked| - 1];
      ExplainedBeforeTake(cfg, cands, picked, stop);
      ExplainedReached(cfg, cands, before, stop - 1);
      GreedyStep(cfg, cands, before, stop - 1);
      assert before + [stop - 1] == picked;
    } else {
      ExplainedBeforePass(cfg, cands, picked, stop);
      ExplainedReached(cfg, cands, picked, stop - 1);
      GreedyStep(cfg, cands, picked, stop - 1);
    }
  }

  lemma ExplainedBeforeTake(cfg: Config, cands: seq<Candidate>, picked: seq<nat>, stop: nat)
    requires Explained(cfg, cands, picked, stop) && picked != [] && picked[|picked| - 1] == stop - 1
    ensures Explained(cfg, cands, picked[..|picked| - 1], stop - 1)
    ensures Judge(cfg, cands, picked[..|picked| - 1], stop - 1) == Take
  {
    hide Judge;
    var before := picked[..|picked| - 1];
    assert forall a | 0 <= a < |before| :: before[a] == picked[a];
    assert Indices(cands, before);
    forall a | 0 <= a < |before| ensures Judge(cfg, cands, before[..a], before[a]) == Take {
      assert before[..a] == picked[..a];
    }
    forall a: nat, j: nat | InGap(before, a, j, stop - 1) && j < |cands|
      ensures Passed(Judge(cfg, cands, before[..a], j))
    {
      assert InGap(picked, a, j, stop);
      assert before[..a] == picked[..a];
    }
  }

  lemma ExplainedBeforePass(cfg: Config, cands: seq<Candidate>, picked: seq<nat>, stop: nat)
    requires Explained(cfg, cands, picked, stop) && stop > 0 && (picked == [] || picked[|picked| - 1] != stop - 1)
    ensures Explained(cfg, cands, picked, stop - 1)
    ensures Passed(Judge(cfg, cands, picked, stop - 1))
  {
    hide Judge;
    assert InGap(picked, |picked|, stop - 1, stop);
    assert picked[..|picked|] == picked;
    forall a: nat, j: nat | InGap(picked, a, j, stop - 1) && j < |cands|
      ensures Passed(Judge(cfg, cands, picked[..a], j))
    {
      assert InGap(picked, a, j, stop);
    }
  }

  /** The pass computes exactly the outcome in which every candidate up to the stopping point is
      accounted for; there is only one such outcome. */
  lemma GreedyIffExplained(cfg: Config, cands: seq<Candidate>, result: Result<(seq<nat>, bool), SelectError>)
    ensures Greedy(cfg, cands, [], 0) == result
       <==> exists picked, stop :: Explained(cfg, cands, picked, stop) && EndsWith(cfg, cands, picked, stop, result)
  {
    hide Judge, Greedy, Increasing, PicksTaken, GapsPassed, EndsWith;
    if Greedy(cfg, cands, [], 0) == result {
      ExplainedStart(cfg, cands);
      var picked, stop := GreedyExplained(cfg, cands, [], 0);
    }
    forall picked, stop | Explained(cfg, cands, picked, stop) && EndsWith(cfg, cands, picked, stop, result)
      ensures Greedy(cfg, cands, [], 0) == result
    {
      ExplainedReached(cfg, cands, picked, stop);
      EndsThere(cfg, cands, picked, stop, result);
    }
  }

  lemma ExplainedStart(cfg: Config, cands: seq<Candidate>)
    ensures Explained(cfg, cands, [], 0)
  {
  }

  lemma EndsThere(cfg: Config, cands: seq<Candidate>, picked: seq<nat>, stop: nat, result: Result<(seq<nat>, bool),
      SelectError>)
    requires Indices(cands, picked) && stop <= |cands| && EndsWith(cfg, cands, picked, stop, result)
    ensures Greedy(cfg, cands, picked, stop) == result
  {
    hide Judge;
    if stop == |cands| {
      GreedyEnd(cfg, cands, picked);
    } else {
      GreedyStep(cfg, cands, picked, stop);
    }
  }

  /** The picks behind a selection, and where the pass stopped. */
  lemma PicksOf(cfg: Config, cands: seq<Candidate>) returns (picked: seq<nat>, stop: nat)
    requires SelectSpec(cfg, cands).Ok?
    ensures Explained(cfg, cands, picked, stop)
    ensures var sel := SelectSpec(cfg, cands).value;
      && sel == Selection(Views(cands, picked), Tokens(cands, picked), |picked|, sel.truncated)
      && EndsWith(cfg, cands, picked, stop, Ok((picked, sel.truncated)))
  {
    hide Judge, Greedy, Explained, Tokens, Views;
    ExplainedStart(cfg, cands);
    picked, stop := GreedyExplained(cfg, cands, [], 0);
    ExplainedBounds(cfg, cands, picked, stop);
  }

  // ---- Limits, order and duplicates ----

  function TotalCost(chunks: seq<Selected>): nat {
    if chunks == [] then 0 else TotalCost(chunks[..|chunks| - 1]) + Cost(chunks[|chunks| - 1].content)
  }

  lemma {:induction false} TokensAreCosts(cands: seq<Candidate>, picked: seq<nat>)
    requires Indices(cands, picked)
    ensures Tokens(cands, picked) == TotalCost(Views(cands, picked))
  {
    if picked == [] {
    } else {
      var before := picked[..|picked| - 1];
      TokensAreCosts(cands, before);
      assert Views(cands, picked)[..|picked| - 1] == Views(cands, before);
    }
  }

  /** The chunks are candidates with content, in candidate order. */
  ghost predicate OrderPreserving(cands: seq<Candidate>, chunks: seq<Selected>) {
    exists picked: seq<nat> :: Increasing(picked, |cands|) && Indices(cands, picked) && chunks == Views(cands, picked)
  }

  ghost predicate WithoutDuplicates(cfg: Config, chunks: seq<Selected>) {
    forall a, b | 0 <= a < b < |chunks| ::
      && (chunks[a].chunkId == chunks[b].chunkId ==> chunks[a].chunkId == "")
      && Snippet(cfg, chunks[a].content) != Snippet(cfg, chunks[b].content)
  }

  lemma TakenIsNew(cfg: Config, cands: seq<Candidate>, picked: seq<nat>, a: nat, b: nat)
    requires Indices(cands, picked) && PicksTaken(cfg, cands, picked) && a < b < |picked|
    ensures var c, d := cands[picked[a]], cands[picked[b]];
      (c.chunkId == d.chunkId ==> c.chunkId == "") && Snippet(cfg, c.content) != Snippet(cfg, d.content)
  {
    hide Snippet, Cost, DocCount, Tokens, LookAhead;
    assert Judge(cfg, cands, picked[..b], picked[b]) == Take;
    assert picked[..b][a] == picked[a];
  }

  lemma TakenFits(cfg: Config, cands: seq<Candidate>, picked: seq<nat>)
    requires Indices(cands, picked) && PicksTaken(cfg, cands, picked) && picked != []
    ensures |picked| <= cfg.maxChunks
    ensures |picked| > 1 ==> Tokens(cands, picked) <= cfg.maxTokens
  {
    hide Snippet, Cost, DocCount, LookAhead, SnippetPicked, IdPicked;
    var last := |picked| - 1;
    assert Judge(cfg, cands, picked[..last], picked[last]) == Take;
  }

  /** The selection preserves the candidates' order, repeats no id and no text, keeps to the chunk
      cap, counts its tokens exactly, and keeps to the budget unless it is a single chunk. */
  lemma SelectionKeepsLimits(cfg: Config, cands: seq<Candidate>)
    requires SelectSpec(cfg, cands).Ok?
    ensures var sel := SelectSpec(cfg, cands).value;
      && OrderPreserving(cands, sel.chunks)
      && WithoutDuplicates(cfg, sel.chunks)
      && sel.selectedCount == |sel.chunks| <= (if cfg.maxChunks > 0 then cfg.maxChunks else 0)
      && sel.totalTokens == TotalCost(sel.chunks)
      && (sel.totalTokens <= cfg.maxTokens || |sel.chunks| <= 1)
  {
    hide Judge, Snippet, Tokens, TotalCost, SelectSpec, EndsWith;
    var picked, stop := PicksOf(cfg, cands);
    var chunks := SelectSpec(cfg, cands).value.chunks;
    TokensAreCosts(cands, picked);
    assert Increasing(picked, |cands|);
    forall a: nat, b: nat | a < b < |chunks|
      ensures chunks[a].chunkId == chunks[b].chunkId ==> chunks[a].chunkId == ""
      ensures Snippet(cfg, chunks[a].content) != Snippet(cfg, chunks[b].content)
    {
      TakenIsNew(cfg, cands, picked, a, b);
    }
    if picked != [] {
      TakenFits(cfg, cands, picked);
    }
  }

  // ---- What tokens, texts and chunks mean ----

  function Characters(chunks: seq<Selected>): nat {
    if chunks == [] then 0 else Characters(chunks[..|chunks| - 1]) + |chunks[|chunks| - 1].content|
  }

  lemma {:induction false} CostsInCharacters(chunks: seq<Selected>)
    ensures Characters(chunks) + 80 * |chunks| <= 4 * TotalCost(chunks) <= Characters(chunks) + 83 * |chunks|
    ensures |chunks| == 1 ==> 4 * (TotalCost(chunks) - 20) - 3 <= |chunks[0].content| <= 4 * (TotalCost(chunks) - 20)
  {
    if chunks == [] {
    } else {
      CostsInCharacters(chunks[..|chunks| - 1]);
      if |chunks| == 1 {
        assert chunks[..0] == [];
      }
    }
  }

  /** The tokens reported are a quarter of the characters, rounded up chunk by chunk, and 20 for each
      chunk; so the characters selected keep to the budget unless they are a single chunk. */
  lemma TokensInCharacters(cfg: Config, cands: seq<Candidate>)
    requires SelectSpec(cfg, cands).Ok?
    ensures var sel := SelectSpec(cfg, cands).value;
      var n, characters := |sel.chunks|, Characters(sel.chunks);
      && characters + 80 * n <= 4 * sel.totalTokens <= characters + 83 * n
      && (n == 1 ==> 4 * (sel.totalTokens - 20) - 3 <= |sel.chunks[0].content| <= 4 * (sel.totalTokens - 20))
      && (n > 1 ==> characters + 80 * n <= 4 * cfg.maxTokens)
  {
    hide SelectSpec, TotalCost, Characters, Snippet;
    SelectionKeepsLimits(cfg, cands);
    CostsInCharacters(SelectSpec(cfg, cands).value.chunks);
  }

  /** When it is truncated below the cap, some candidate would have pushed the characters selected past
      the budget. */
  lemma TruncatedInCharacters(cfg: Config, cands: seq<Candidate>)
    requires SelectSpec(cfg, cands).Ok? && SelectSpec(cfg, cands).value.truncated
    ensures var sel := SelectSpec(cfg, cands).value;
      || |sel.chunks| == (if cfg.maxChunks > 0 then cfg.maxChunks else 0)
      || (sel.chunks != [] &&
          exists c | c in cands :: HasContent(c) && 4 * sel.totalTokens + |c.content| + 83 > 4 * cfg.maxTokens)
  {
    hide SelectSpec, Snippet;
    TruncatedByALimit(cfg, cands);
    var sel := SelectSpec(cfg, cands).value;
    if c :| c in cands && HasContent(c) && sel.totalTokens + Cost(c.content) > cfg.maxTokens {
      assert 4 * Cost(c.content) <= |c.content| + 83;
    }
  }

  /** Both texts have the same character at this place, or neither has one. */
  predicate AlikeAt(a: Text, b: Text, p: nat) {
    (p < |a| <==> p < |b|) && (p < |a| && p < |b| ==> a[p] == b[p])
  }

  ghost predicate AlikeUpTo150(a: Text, b: Text) {
    forall p: nat | p < 150 :: AlikeAt(a, b, p)
  }

  /** Two texts count as the same exactly when, trimmed and lower-cased, they agree over 150 characters. */
  lemma SameSnippetIff(cfg: Config, a: Text, b: Text)
    ensures Snippet(cfg, a) == Snippet(cfg, b) <==> AlikeUpTo150(cfg.lower(Trim(a)), cfg.lower(Trim(b)))
  {
    var x, y := cfg.lower(Trim(a)), cfg.lower(Trim(b));
    var s, t := Snippet(cfg, a), Snippet(cfg, b);
    if s == t {
      forall p: nat | p < 150 ensures AlikeAt(x, y, p) {
        assert p < |x| ==> x[p] == s[p];
        assert p < |y| ==> y[p] == t[p];
      }
    }
    if AlikeUpTo150(x, y) {
      SameLengthUpTo150(x, y);
      forall p | 0 <= p < |s| ensures s[p] == t[p] {
        assert AlikeAt(x, y, p) && s[p] == x[p] && t[p] == y[p];
      }
    }
  }

  lemma SameLengthUpTo150(x: Text, y: Text)
    requires AlikeUpTo150(x, y)
    ensures |x| == |y| || (|x| >= 150 && |y| >= 150)
  {
    if |x| < 150 {
      assert AlikeAt(x, y, |x|);
    }
    if |y| < 150 {
      assert AlikeAt(x, y, |y|);
    }
  }

  /** A chunk without a document counts as one of the document named unknown. */
  predicate CountsFor(c: Candidate, doc: string)
    requires c.Chunk?
  {
    c.documentId == doc || (c.documentId == "" && doc == "unknown")
  }

  ghost function PicksIn(cands: seq<Candidate>, picked: seq<nat>, doc: string): set<int>
    requires Indices(cands, picked)
  {
    set a | 0 <= a < |picked| && CountsFor(cands[picked[a]], doc)
  }

  lemma CountsForIs(c: Candidate, doc: string)
    requires c.Chunk? && doc != ""
    ensures CountsFor(c, doc) <==> DocOf(c) == doc
  {
  }

  lemma PicksInSnoc(cands: seq<Candidate>, init: seq<nat>, i: nat, doc: string)
    requires Indices(cands, init) && i < |cands| && HasContent(cands[i])
    ensures Indices(cands, init + [i])
    ensures |PicksIn(cands, init + [i], doc)| == |PicksIn(cands, init, doc)| + if CountsFor(cands[i], doc) then 1 else 0
  {
    hide CountsFor;
    var before, after := PicksIn(cands, init, doc), PicksIn(cands, init + [i], doc);
    assert forall a | 0 <= a < |init| :: (init + [i])[a] == init[a];
    assert after == before + if CountsFor(cands[i], doc) then {|init|} else {};
  }

  /** The diversity rule counts the picks of a document, those without one under the name unknown. */
  lemma {:induction false} DocCountIs(cands: seq<Candidate>, picked: seq<nat>, doc: string)
    requires Indices(cands, picked) && doc != ""
    ensures DocCount(cands, picked, doc) == |PicksIn(cands, picked, doc)|
  {
    hide PicksIn, CountsFor, DocOf;
    if picked == [] {
      NoPicksIn(cands, doc);
    } else {
      var init, last := picked[..|picked| - 1], picked[|picked| - 1];
      DocCountIs(cands, init, doc);
      PicksInSnoc(cands, init, last, doc);
      CountsForIs(cands[last], doc);
      assert picked == init + [last];
    }
  }

  lemma NoPicksIn(cands: seq<Candidate>, doc: string)
    ensures PicksIn(cands, [], doc) == {}
  {
  }

  /** Each selected chunk shows its candidate: ids, text, score, position and metadata, with the score for
      a missing vector score. */
  lemma ChunksShowCandidates(cfg: Config, cands: seq<Candidate>, a: nat) returns (j: nat)
    requires SelectSpec(cfg, cands).Ok? && a < |SelectSpec(cfg, cands).value.chunks|
    ensures j < |cands| && cands[j].Chunk? && cands[j].content != []
    ensures var chunk, c := SelectSpec(cfg, cands).value.chunks[a], cands[j];
      && chunk.chunkId == c.chunkId && chunk.documentId == c.documentId && chunk.content == c.content
      && chunk.score == c.score && chunk.pageNumber == c.pageNumber && chunk.chunkIndex == c.chunkIndex
      && (c.vectorScore == Some(chunk.vectorScore) || (c.vectorScore == None && chunk.vectorScore == c.score))
      && (c.metadata == Some(chunk.metadata) || (c.metadata == None && chunk.metadata == "{}"))
  {
    hide SelectSpec, Tokens, Judge;
    var picked, stop := PicksOf(cfg, cands);
    j := picked[a];
  }

  // ---- What is left out, and why ----

  lemma {:induction false} FindGap(picked: seq<nat>, j: nat, stop: nat) returns (a: nat)
    requires Increasing(picked, stop) && j < stop && j !in picked
    ensures InGap(picked, a, j, stop)
    decreases |picked|
  {
    if picked == [] || picked[|picked| - 1] < j {
      a := |picked|;
    } else {
      var last := |picked| - 1;
      assert forall b | 0 <= b < last :: picked[b] == picked[..last][b];
      assert j != picked[last];
      a := FindGap(picked[..last], j, picked[last]);
    }
  }

  ghost predicate SharesId(chunks: seq<Selected>, c: Candidate)
    requires c.Chunk?
  {
    c.chunkId != "" && exists k | k in chunks :: k.chunkId == c.chunkId
  }

  ghost predicate SharesText(cfg: Config, chunks: seq<Selected>, c: Candidate)
    requires c.Chunk?
  {
    exists k | k in chunks :: Snippet(cfg, k.content) == Snippet(cfg, c.content)
  }

  /** At least three chunks of the candidate's document were selected, and there is a candidate of
      another document. */
  ghost predicate HeldBack(cands: seq<Candidate>, picked: seq<nat>, c: Candidate)
    requires c.Chunk? && Indices(cands, picked)
  {
    && |cands| > 5 && DocCount(cands, picked, DocOf(c)) >= 3
    && exists d | d in cands :: d.Chunk? && d.documentId != "" && d.documentId != DocOf(c)
  }

  lemma {:induction false} CountGrows(cands: seq<Candidate>, picked: seq<nat>, a: nat, doc: string)
    requires Indices(cands, picked) && a <= |picked|
    ensures DocCount(cands, picked[..a], doc) <= DocCount(cands, picked, doc)
  {
    if a < |picked| {
      CountGrows(cands, picked[..|picked| - 1], a, doc);
      assert picked[..|picked| - 1][..a] == picked[..a];
    } else {
      assert picked[..a] == picked;
    }
  }

  lemma {:induction false} LookAheadSees(cands: seq<Candidate>, picked: seq<nat>, doc: string, from: nat)
    requires Indices(cands, picked) && LookAhead(cands, picked, doc, from) == Ok(true)
    ensures exists d | d in cands :: d.Chunk? && d.documentId != "" && d.documentId != doc
    decreases |cands| - from
  {
    var d := cands[from];
    if !(d.Chunk? && d.documentId != "" && d.documentId != doc) {
      LookAheadSees(cands, picked, doc, from + 1);
    }
  }

  lemma PassedReason(cfg: Config, cands: seq<Candidate>, picked: seq<nat>, a: nat, j: nat)
    requires Indices(cands, picked) && a <= |picked| && j < |cands| && Passed(Judge(cfg, cands, picked[..a], j))
    requires HasContent(cands[j])
    ensures var chunks, c := Views(cands, picked), cands[j];
      SharesId(chunks, c) || SharesText(cfg, chunks, c) || HeldBack(cands, picked, c)
  {
    hide Snippet, Cost, DocCount, Tokens, LookAhead;
    var c, chunks := cands[j], Views(cands, picked);
    var ruling := Judge(cfg, cands, picked[..a], j);
    if ruling.SameId? {
      var b :| 0 <= b < a && cands[picked[..a][b]].chunkId == c.chunkId;
      assert chunks[b] in chunks && chunks[b].chunkId == c.chunkId;
    } else if ruling.SameText? {
      var b :| 0 <= b < a && Snippet(cfg, cands[picked[..a][b]].content) == Snippet(cfg, c.content);
      assert chunks[b] in chunks && Snippet(cfg, chunks[b].content) == Snippet(cfg, c.content);
    } else {
      CountGrows(cands, picked, a, DocOf(c));
      LookAheadSees(cands, picked[..a], DocOf(c), a);
    }
  }

  /** When the selection is not truncated, every candidate left out lacked content, repeated a
      selected chunk, or gave way to another document. */
  lemma NothingLeftWithoutReason(cfg: Config, cands: seq<Candidate>, j: nat) returns (picked: seq<nat>)
    requires SelectSpec(cfg, cands).Ok? && !SelectSpec(cfg, cands).value.truncated && j < |cands|
    ensures Indices(cands, picked) && SelectSpec(cfg, cands).value.chunks == Views(cands, picked)
    ensures var chunks := SelectSpec(cfg, cands).value.chunks;
      || j in picked
      || !HasContent(cands[j])
      || SharesId(chunks, cands[j]) || SharesText(cfg, chunks, cands[j]) || HeldBack(cands, picked, cands[j])
  {
    hide Judge, Tokens, SelectSpec, SharesId, SharesText, HeldBack, Views;
    var stop;
    picked, stop := PicksOf(cfg, cands);
    if j !in picked && HasContent(cands[j]) {
      var a := FindGap(picked, j, stop);
      PassedReason(cfg, cands, picked, a, j);
    }
  }

  /** When it is truncated, a limit really stood in the way. */
  lemma TruncatedByALimit(cfg: Config, cands: seq<Candidate>)
    requires SelectSpec(cfg, cands).Ok? && SelectSpec(cfg, cands).value.truncated
    ensures var sel := SelectSpec(cfg, cands).value;
      || |sel.chunks| == (if cfg.maxChunks > 0 then cfg.maxChunks else 0)
      || (sel.chunks != [] &&
          exists c | c in cands :: HasContent(c) && sel.totalTokens + Cost(c.content) > cfg.maxTokens)
  {
    hide Snippet, Tokens, SelectSpec, LookAhead, IdPicked, SnippetPicked, Cost, DocCount, Greedy;
    var picked, stop := PicksOf(cfg, cands);
    var sel := SelectSpec(cfg, cands).value;
    SelectionKeepsLimits(cfg, cands);
    if !Judge(cfg, cands, picked, stop).CapReached? {
      assert cands[stop] in cands;
    }
  }

  // ---- Diversity ----

  /** Every candidate with content has both ids. */
  predicate Complete(cands: seq<Candidate>) {
    forall c | c in cands :: HasContent(c) ==> c.chunkId != "" && c.documentId != ""
  }

  lemma {:induction false} LookAheadBlind(cands: seq<Candidate>, picked: seq<nat>, doc: string, from: nat, j: nat)
    requires Indices(cands, picked) && LookAhead(cands, picked, doc, from) == Ok(false) && from <= j < |cands|
    ensures cands[j].Chunk?
    ensures cands[j].documentId == "" || cands[j].documentId == doc || IdPicked(cands, picked, cands[j].chunkId)
    decreases j - from
  {
    if from < j {
      LookAheadBlind(cands, picked, doc, from + 1, j);
    }
  }

  lemma {:induction false} PicksRunAhead(picked: seq<nat>, stop: nat, b: nat)
    requires Increasing(picked, stop) && b < |picked|
    ensures b <= picked[b]
  {
    if b == 0 {
    } else {
      PicksRunAhead(picked, stop, b - 1);
    }
  }

  /** Once a document's fourth chunk is in, the look-ahead starts no later than any later pick, so
      each later pick is from that document. */
  lemma FourthIsFollowedByItsOwn(cfg: Config, cands: seq<Candidate>, picked: seq<nat>, stop: nat, a: nat, b: nat)
    requires Explained(cfg, cands, picked, stop) && Complete(cands) && |cands| > 5
    requires a < b < |picked| && DocCount(cands, picked[..a], DocOf(cands[picked[a]])) >= 3
    ensures DocOf(cands[picked[b]]) == DocOf(cands[picked[a]])
  {
    hide Snippet, Cost, DocCount, Tokens, LookAhead, SnippetPicked;
    assert Judge(cfg, cands, picked[..a], picked[a]) == Take;
    PicksRunAhead(picked, stop, b);
    var doc, c := DocOf(cands[picked[a]]), cands[picked[b]];
    assert c in cands;
    LookAheadBlind(cands, picked[..a], doc, a, picked[b]);
    if IdPicked(cands, picked[..a], c.chunkId) {
      var e :| 0 <= e < a && cands[picked[..a][e]].chunkId == c.chunkId;
      TakenIsNew(cfg, cands, picked, e, b);
    }
  }

  /** The pick that takes a document's count past three. */
  lemma {:induction false} FourthPick(cands: seq<Candidate>, picked: seq<nat>, doc: string) returns (a: nat)
    requires Indices(cands, picked) && DocCount(cands, picked, doc) > 3
    ensures a < |picked| && DocOf(cands[picked[a]]) == doc && DocCount(cands, picked[..a], doc) == 3
  {
    var before := picked[..|picked| - 1];
    if DocCount(cands, before, doc) > 3 {
      a := FourthPick(cands, before, doc);
      assert before[..a] == picked[..a] && before[a] == picked[a];
    } else {
      a := |picked| - 1;
    }
  }

  lemma {:induction false} TwoCounts(cands: seq<Candidate>, picked: seq<nat>, d: string, e: string)
    requires Indices(cands, picked) && d != e
    ensures DocCount(cands, picked, d) + DocCount(cands, picked, e) <= |picked|
  {
    if picked == [] {
    } else {
      TwoCounts(cands, picked[..|picked| - 1], d, e);
    }
  }

  function ChunksOf(chunks: seq<Selected>, doc: string): nat {
    if chunks == [] then 0
    else ChunksOf(chunks[..|chunks| - 1], doc) + if chunks[|chunks| - 1].documentId == doc then 1 else 0
  }

  lemma {:induction false} CountsAgree(cands: seq<Candidate>, picked: seq<nat>, doc: string)
    requires Indices(cands, picked) && Complete(cands)
    ensures ChunksOf(Views(cands, picked), doc) == DocCount(cands, picked, doc)
  {
    if picked == [] {
    } else {
      var before := picked[..|picked| - 1];
      CountsAgree(cands, before, doc);
      assert Views(cands, picked)[..|picked| - 1] == Views(cands, before);
      assert cands[picked[|picked| - 1]] in cands;
    }
  }

  /** At most one document contributes more than three chunks. */
  lemma OneDocumentPastThree(cfg: Config, cands: seq<Candidate>, d: string, e: string)
    requires SelectSpec(cfg, cands).Ok? && Complete(cands) && d != e
    ensures var chunks := SelectSpec(cfg, cands).value.chunks; ChunksOf(chunks, d) <= 3 || ChunksOf(chunks, e) <= 3
  {
    hide SelectSpec, DocCount, ChunksOf, Judge, Tokens, Views;
    var picked, stop := PicksOf(cfg, cands);
    CountsAgree(cands, picked, d);
    CountsAgree(cands, picked, e);
    if DocCount(cands, picked, d) > 3 && DocCount(cands, picked, e) > 3 {
      var a := FourthPick(cands, picked, d);
      var b := FourthPick(cands, picked, e);
      TwoCounts(cands, picked, d, e);
      PicksRunAhead(picked, stop, |picked| - 1);
      if a < b {
        FourthIsFollowedByItsOwn(cfg, cands, picked, stop, a, b);
      } else {
        FourthIsFollowedByItsOwn(cfg, cands, picked, stop, b, a);
      }
    }
  }

  /** Once a document's fourth chunk is selected, every later chunk is from that document. */
  lemma LaterChunksFollowTheFourth(cfg: Config, cands: seq<Candidate>, a: nat, b: nat)
    requires SelectSpec(cfg, cands).Ok? && Complete(cands) && |cands| > 5
    requires var chunks := SelectSpec(cfg, cands).value.chunks;
      a < b < |chunks| && ChunksOf(chunks[..a], chunks[a].documentId) >= 3
    ensures var chunks := SelectSpec(cfg, cands).value.chunks; chunks[b].documentId == chunks[a].documentId
  {
    hide SelectSpec, DocCount, ChunksOf, Judge, Tokens;
    var picked, stop := PicksOf(cfg, cands);
    var c, d := cands[picked[a]], cands[picked[b]];
    assert c in cands && d in cands;
    assert SelectSpec(cfg, cands).value.chunks[..a] == Views(cands, picked[..a]);
    CountsAgree(cands, picked[..a], DocOf(c));
    FourthIsFollowedByItsOwn(cfg, cands, picked, stop, a, b);
  }

  // ---- Null candidates ----

  /** A candidate the look-ahead for a document would stop at. */
  predicate OtherUnpicked(cands: seq<Candidate>, picked: seq<nat>, doc: string, c: Candidate)
    requires Indices(cands, picked)
  {
    c.Chunk? && c.documentId != "" && c.documentId != doc && !IdPicked(cands, picked, c.chunkId)
  }

  /** From a position on, a null comes before any unpicked candidate of another document. */
  ghost predicate NullComesFirst(cands: seq<Candidate>, picked: seq<nat>, doc: string, from: nat)
    requires Indices(cands, picked)
  {
    exists n ::
      && from <= n < |cands| && cands[n].Null?
      && forall m | from <= m < n :: !OtherUnpicked(cands, picked, doc, cands[m])
  }

  lemma {:induction false} LookAheadThrowsIff(cands: seq<Candidate>, picked: seq<nat>, doc: string, from: nat)
    requires Indices(cands, picked)
    ensures LookAhead(cands, picked, doc, from).Err? <==> NullComesFirst(cands, picked, doc, from)
    decreases |cands| - from
  {
    hide IdPicked;
    if from >= |cands| {
    } else {
      LookAheadThrowsIff(cands, picked, doc, from + 1);
      var c := cands[from];
      if c.Chunk? && !OtherUnpicked(cands, picked, doc, c) && NullComesFirst(cands, picked, doc, from + 1) {
        var n :| from + 1 <= n < |cands| && cands[n].Null?
                 && forall m | from + 1 <= m < n :: !OtherUnpicked(cands, picked, doc, cands[m]);
        assert forall m | from <= m < n :: !OtherUnpicked(cands, picked, doc, cands[m]);
      }
    }
  }

  /** Candidate i reaches the diversity check with three chunks of its document in, and there a null
      comes before any unpicked candidate of another document. */
  ghost predicate MeetsNull(cfg: Config, cands: seq<Candidate>, picked: seq<nat>, i: nat)
    requires Indices(cands, picked) && i < |cands|
  {
    var c := cands[i];
    && |picked| < cfg.maxChunks && HasContent(c)
    && !IdPicked(cands, picked, c.chunkId) && !SnippetPicked(cfg, cands, picked, Snippet(cfg, c.content))
    && (picked == [] || Tokens(cands, picked) + Cost(c.content) <= cfg.maxTokens)
    && |cands| > 5 && DocCount(cands, picked, DocOf(c)) >= 3
    && NullComesFirst(cands, picked, DocOf(c), |picked|)
  }

  lemma ThrowsIffMeetsNull(cfg: Config, cands: seq<Candidate>, picked: seq<nat>, i: nat)
    requires Indices(cands, picked) && i < |cands|
    ensures Judge(cfg, cands, picked, i).Throws? <==> MeetsNull(cfg, cands, picked, i)
  {
    hide IdPicked, SnippetPicked, Snippet, Tokens, Cost, DocCount, LookAhead, NullComesFirst;
    if HasContent(cands[i]) {
      LookAheadThrowsIff(cands, picked, DocOf(cands[i]), |picked|);
    }
  }

  /** The selector throws exactly when some candidate, with every candidate before it accounted for,
      meets a null in its look-ahead that way. */
  lemma SelectionThrowsIff(cfg: Config, cands: seq<Candidate>)
    ensures SelectSpec(cfg, cands).Err?
       <==> exists picked: seq<nat>, i: nat ::
              Explained(cfg, cands, picked, i) && i < |cands| && MeetsNull(cfg, cands, picked, i)
  {
    hide Judge, Greedy, Increasing, PicksTaken, GapsPassed, MeetsNull;
    var thrown: Result<(seq<nat>, bool), SelectError> := Err(NullCandidate);
    GreedyIffExplained(cfg, cands, thrown);
    OneError(cfg, cands);
    forall picked: seq<nat>, i: nat | Explained(cfg, cands, picked, i)
      ensures EndsWith(cfg, cands, picked, i, thrown) <==> i < |cands| && MeetsNull(cfg, cands, picked, i)
    {
      if i < |cands| {
        ThrowsIffMeetsNull(cfg, cands, picked, i);
      }
    }
  }

  lemma OneError(cfg: Config, cands: seq<Candidate>)
    ensures SelectSpec(cfg, cands).Err? <==> Greedy(cfg, cands, [], 0) == Err(NullCandidate)
  {
    hide Greedy;
    var r := Greedy(cfg, cands, [], 0);
    if r.Err? {
      assert r.error.NullCandidate?;
    }
  }

  /** A list without null candidates never makes the selector throw. */
  lemma NoNullNoThrow(cfg: Config, cands: seq<Candidate>)
    requires Null !in cands
    ensures SelectSpec(cfg, cands).Ok?
  {
    hide Greedy, Tokens, Cost, Snippet, DocCount, LookAhead, IdPicked, SnippetPicked;
    ExplainedStart(cfg, cands);
    var picked, stop := GreedyExplained(cfg, cands, [], 0);
    if stop < |cands| && HasContent(cands[stop]) {
      LookAheadCalm(cands, picked, DocOf(cands[stop]), |picked|);
    }
  }

  lemma {:induction false} LookAheadCalm(cands: seq<Candidate>, picked: seq<nat>, doc: string, from: nat)
    requires Indices(cands, picked) && Null !in cands
    ensures LookAhead(cands, picked, doc, from).Ok?
    decreases |cands| - from
  {
    if from >= |cands| {
    } else {
      LookAheadCalm(cands, picked, doc, from + 1);
    }
  }

  function First(n: nat): (picked: seq<nat>)
    ensures |picked| == n && forall a | 0 <= a < n :: picked[a] == a
  {
    seq(n, a => a)
  }

  /** The first n candidates have content, one document, and no id or text twice. */
  ghost predicate SameDocumentRun(cfg: Config, cands: seq<Candidate>, n: nat, doc: string) {
    && n <= |cands|
    && (forall a | 0 <= a < n :: HasContent(cands[a]) && DocOf(cands[a]) == doc)
    && (forall a, b | 0 <= a < b < n ::
          cands[a].chunkId != cands[b].chunkId && Snippet(cfg, cands[a].content) != Snippet(cfg, cands[b].content))
  }

  lemma RunIsNew(cfg: Config, cands: seq<Candidate>, n: nat, doc: string, i: nat)
    requires SameDocumentRun(cfg, cands, n, doc) && i < n
    ensures Indices(cands, First(i)) && First(i) + [i] == First(i + 1)
    ensures !IdPicked(cands, First(i), cands[i].chunkId)
    ensures !SnippetPicked(cfg, cands, First(i), Snippet(cfg, cands[i].content))
  {
    hide Snippet;
  }

  lemma {:induction false} RunIsTaken(cfg: Config, cands: seq<Candidate>, n: nat, doc: string, i: nat)
    requires SameDocumentRun(cfg, cands, n, doc) && i <= n <= cfg.maxChunks && i <= 3 && n <= 4
    requires Indices(cands, First(n)) && Tokens(cands, First(n)) <= cfg.maxTokens
    ensures Indices(cands, First(i)) && DocCount(cands, First(i), doc) == i
    ensures Greedy(cfg, cands, [], 0) == Greedy(cfg, cands, First(i), i)
  {
    hide Snippet, Cost, Greedy, SnippetPicked, IdPicked, Tokens, DocCount, LookAhead;
    if i == 0 {
      assert First(0) == [];
      CountNone(cands, doc);
    } else {
      RunIsTaken(cfg, cands, n, doc, i - 1);
      RunIsNew(cfg, cands, n, doc, i - 1);
      RunFits(cands, n, i - 1);
      GreedyStep(cfg, cands, First(i - 1), i - 1);
      SumsAdd(cands, First(i - 1), i - 1, doc);
    }
  }

  lemma CountNone(cands: seq<Candidate>, doc: string)
    ensures DocCount(cands, [], doc) == 0
  {
  }

  lemma {:induction false} RunFits(cands: seq<Candidate>, n: nat, i: nat)
    requires Indices(cands, First(n)) && i < n
    ensures Indices(cands, First(i)) && i < |cands| && HasContent(cands[i])
    ensures Tokens(cands, First(i)) + Cost(cands[i].content) <= Tokens(cands, First(n))
    decreases n
  {
    hide Cost;
    assert First(n)[n - 1] == n - 1 && First(n)[..n - 1] == First(n - 1);
    assert forall a | 0 <= a < n - 1 :: First(n - 1)[a] == First(n)[a];
    assert First(n)[i] == i;
    if i < n - 1 {
      RunFits(cands, n - 1, i);
    }
  }

  /** A null right behind four chunks of one document does make it throw: the look-ahead for the
      fourth chunk reads a field of the null. */
  lemma NullAfterFour(cfg: Config, cands: seq<Candidate>, doc: string)
    requires |cands| > 5 && SameDocumentRun(cfg, cands, 4, doc) && cands[4] == Null
    requires Indices(cands, First(4)) && Tokens(cands, First(4)) <= cfg.maxTokens && cfg.maxChunks >= 4
    ensures SelectSpec(cfg, cands) == Err(NullCandidate)
  {
    hide Snippet, Cost, Greedy, SnippetPicked, IdPicked, Tokens, DocCount;
    RunIsTaken(cfg, cands, 4, doc, 3);
    RunIsNew(cfg, cands, 4, doc, 3);
    RunFits(cands, 4, 3);
    GreedyStep(cfg, cands, First(3), 3);
    assert LookAhead(cands, First(3), doc, 4) == Err(NullCandidate);
  }
}
