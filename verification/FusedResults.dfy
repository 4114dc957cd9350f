/** What the fused results mean, told by the two lists alone: whose records they show, with which sums,
    in which order, and how they are rounded and cut. */
module FusedResults {
  import opened Outcomes
  import opened RankFusion

  /** The sum of 1 / (k + rank) over the positions of an id, the first of which has rank `rank`. */
  function SumFrom(list: seq<Item>, id: string, k: real, rank: nat): real
    requires NoPole(k) && rank >= 1
  {
    if list == [] then 0.0
    else
      NeverZero(k, rank);
      (if list[0].chunkId == id then 1.0 / (k + rank as real) else 0.0) + SumFrom(list[1..], id, k, rank + 1)
  }

  function Sum(v: seq<Item>, w: seq<Item>, id: string, k: real): real
    requires NoPole(k)
  {
    SumFrom(v, id, k, 1) + SumFrom(w, id, k, 1)
  }

  lemma {:induction false} SumOneMore(list: seq<Item>, item: Item, id: string, k: real, rank: nat)
    requires NoPole(k) && rank >= 1
    ensures SumFrom(list + [item], id, k, rank) ==
            SumFrom(list, id, k, rank) + if item.chunkId == id then Contribution(k, rank + |list|) else 0.0
  {
    if list == [] {
      assert ([item])[1..] == [] && list + [item] == [item];
      assert SumFrom([], id, k, rank + 1) == 0.0;
    } else {
      assert (list + [item])[1..] == list[1..] + [item];
      SumOneMore(list[1..], item, id, k, rank + 1);
    }
  }

  lemma {:induction false} ScoreIsSum(list: seq<Item>, id: string, k: real)
    requires NoPole(k)
    ensures ScoreIn(list, id, k) == SumFrom(list, id, k, 1)
  {
    if list == [] {
    } else {
      var init, last := list[..|list| - 1], list[|list| - 1];
      ScoreIsSum(init, id, k);
      SumOneMore(init, last, id, k, 1);
      assert list == init + [last];
    }
  }

  /** An id's score is the sum over both lists of 1 / (k + rank) at every position it has. */
  lemma TotalIsSum(v: seq<Item>, w: seq<Item>, id: string, k: real)
    requires NoPole(k)
    ensures Total(v, w, id, k) == Sum(v, w, id, k)
  {
    ScoreIsSum(v, id, k);
    ScoreIsSum(w, id, k);
  }

  // ---- Records ----

  /** The id's last position in the list has this rank and own score, or the list does not have the id. */
  ghost predicate LastAt(list: seq<Item>, id: string, rank: Option<nat>, score: Option<real>) {
    match rank
    case None => score == None && forall item | item in list :: item.chunkId != id
    case Some(r) =>
      && 1 <= r <= |list| && list[r - 1].chunkId == id && list[r - 1].score == score
      && forall item | item in list[r..] :: item.chunkId != id
  }

  /** The record shows the item its id first appears with. */
  ghost predicate ShowsFirst(e: Entry, list: seq<Item>, p: nat) {
    && p < |list| && list[p].chunkId == e.chunkId && (forall item | item in list[..p] :: item.chunkId != e.chunkId)
    && e.documentId == list[p].documentId && e.content == list[p].content && e.pageNumber == list[p].pageNumber
    && e.chunkIndex == list[p].chunkIndex
    && (list[p].metadata == Some(e.metadata) || (list[p].metadata == None && e.metadata == "{}"))
  }

  /** The record of an id over both lists. */
  ghost predicate Describes(e: Entry, v: seq<Item>, w: seq<Item>, k: real)
    requires NoPole(k)
  {
    && e.chunkId != "" && (exists p :: ShowsFirst(e, v + w, p))
    && LastAt(v, e.chunkId, e.vectorRank, e.vectorScore) && LastAt(w, e.chunkId, e.keywordRank, e.keywordScore)
    && e.rrfScore == Sum(v, w, e.chunkId, k)
  }

  lemma {:induction false} LastInIsLast(list: seq<Item>, id: string)
    ensures LastAt(list, id, RankIn(list, id), OwnScoreIn(list, id))
  {
    if list == [] {
    } else {
      var init, last := list[..|list| - 1], list[|list| - 1];
      LastInIsLast(init, id);
      assert list == init + [last];
      if last.chunkId != id && RankIn(init, id).Some? {
        assert list[RankIn(init, id).value..] == init[RankIn(init, id).value..] + [last];
      }
    }
  }

  lemma {:induction false} FirstOfIsFirst(list: seq<Item>, id: string) returns (p: nat)
    requires id in Ids(list)
    ensures p < |list| && list[p] == FirstOf(list, id) && list[p].chunkId == id != ""
    ensures forall item | item in list[..p] :: item.chunkId != id
  {
    var init := list[..|list| - 1];
    if id in Ids(init) {
      p := FirstOfIsFirst(init, id);
      assert list[..p] == init[..p];
    } else {
      p := |list| - 1;
      IdsMembers(init, id);
      forall item | item in init ensures item.chunkId != id {
        var i :| 0 <= i < |init| && init[i] == item;
      }
    }
  }

  lemma EntryDescribes(v: seq<Item>, w: seq<Item>, id: string, k: real)
    requires NoPole(k) && id in Ids(v + w)
    ensures Describes(EntryOf(v, w, id, k), v, w, k)
  {
    hide Ids, FirstOf, LastIn, ScoreIn, SumFrom, LastAt;
    var e := EntryOf(v, w, id, k);
    var p := FirstOfIsFirst(v + w, id);
    assert ShowsFirst(e, v + w, p);
    LastInIsLast(v, id);
    LastInIsLast(w, id);
    TotalIsSum(v, w, id, k);
  }

  // ---- Order ----

  /** One id appears in the list while the other has not appeared yet. */
  ghost predicate AppearsBefore(list: seq<Item>, a: string, b: string) {
    exists p: nat :: p < |list| && list[p].chunkId == a && forall item | item in list[..p + 1] :: item.chunkId != b
  }

  lemma {:induction false} IdsByAppearance(list: seq<Item>, a: string, b: string)
    requires Precedes(Ids(list), a, b)
    ensures AppearsBefore(list, a, b)
  {
    if list == [] {
    } else {
      var init := list[..|list| - 1];
      var p, q :| 0 <= p < q < |Ids(list)| && Ids(list)[p] == a && Ids(list)[q] == b;
      if q < |Ids(init)| {
        assert Ids(init)[p] == a && Ids(init)[q] == b;
        IdsByAppearance(init, a, b);
        var i: nat :| i < |init| && init[i].chunkId == a && forall item | item in init[..i + 1] :: item.chunkId != b;
        assert list[i] == init[i] && list[..i + 1] == init[..i + 1];
      } else {
        assert Ids(init)[p] == a;
        IdsMembers(init, a);
        IdsMembers(init, b);
        var i: nat :| i < |init| && init[i].chunkId == a;
        assert list[i] == init[i];
        forall item | item in list[..i + 1] ensures item.chunkId != b {
          var j :| 0 <= j < i + 1 && list[j] == item;
          assert init[j] == item;
        }
      }
    }
  }

  /** The ids of a list, in no order. */
  function IdSet(list: seq<Item>): set<string> {
    (set item | item in list :: item.chunkId) - {""}
  }

  lemma IdSetOneMore(list: seq<Item>, item: Item)
    ensures IdSet(list + [item]) == if item.chunkId == "" then IdSet(list) else IdSet(list) + {item.chunkId}
  {
    var ids := set i | i in list :: i.chunkId;
    assert (set i | i in list + [item] :: i.chunkId) == ids + {item.chunkId};
  }

  lemma {:induction false} IdsAreIdSet(list: seq<Item>)
    ensures |Ids(list)| == |IdSet(list)|
    ensures forall id :: id in Ids(list) <==> id in IdSet(list)
  {
    hide IdSet;
    if list == [] {
      NoIds();
    } else {
      var init, last := list[..|list| - 1], list[|list| - 1];
      IdsAreIdSet(init);
      IdSetOneMore(init, last);
      assert list == init + [last];
      if last.chunkId in IdSet(init) {
        assert IdSet(init) + {last.chunkId} == IdSet(init);
      }
    }
  }

  lemma NoIds()
    ensures IdSet([]) == {}
  {
  }

  // ---- Rounding ----

  /** The nearest multiple of 10^-6, and of two as near the one farther from zero. */
  ghost predicate Rounded(r: real, x: real) {
    && (r * 1000000.0).Floor as real == r * 1000000.0
    && r - 0.0000005 <= x <= r + 0.0000005
    && (if x >= 0.0 then x < r + 0.0000005 else r - 0.0000005 < x)
  }

  lemma RoundSixRounds(x: real)
    ensures Rounded(RoundSix(x), x)
  {
    var m := if x < 0.0 then -(-x * 1000000.0 + 0.5).Floor else (x * 1000000.0 + 0.5).Floor;
    assert RoundSix(x) * 1000000.0 == m as real;
    FloorOfWhole(m);
  }

  // ---- The results ----

  /** The result at a place: numbered from 1, its record one of the two lists', its score rounded. */
  ghost predicate Explained(result: Fused, place: nat, v: seq<Item>, w: seq<Item>, k: real)
    requires NoPole(k)
  {
    && result.fusedRank == place + 1 && result.entry.rrfScore == result.score
    && Describes(result.entry.(rrfScore := Sum(v, w, result.entry.chunkId, k)), v, w, k)
    && Rounded(result.score, Sum(v, w, result.entry.chunkId, k))
  }

  /** The first comes before the second: its sum is greater, or the same and it appeared first. */
  ghost predicate Ahead(v: seq<Item>, w: seq<Item>, k: real, a: string, b: string)
    requires NoPole(k)
  {
    || Sum(v, w, a, k) > Sum(v, w, b, k)
    || (Sum(v, w, a, k) == Sum(v, w, b, k) && AppearsBefore(v + w, a, b))
  }

  lemma RankedAhead(v: seq<Item>, w: seq<Item>, k: real, i: nat, j: nat)
    requires NoPole(k) && i < j < |Ranking(v, w, k)|
    ensures var a, b := Ranking(v, w, k)[i], Ranking(v, w, k)[j];
      a.chunkId != b.chunkId && Ahead(v, w, k, a.chunkId, b.chunkId) && RoundSix(a.rrfScore) >= RoundSix(b.rrfScore)
  {
    hide Ranking, EntryOf, Ids, Precedes, AppearsBefore, SumFrom;
    var a, b := Ranking(v, w, k)[i], Ranking(v, w, k)[j];
    RankingIsCorrect(v, w, k);
    assert a in Ranking(v, w, k) && b in Ranking(v, w, k);
    EntryDescribes(v, w, a.chunkId, k);
    EntryDescribes(v, w, b.chunkId, k);
    if a.rrfScore == b.rrfScore {
      IdsByAppearance(v + w, a.chunkId, b.chunkId);
    }
    RoundingMonotone(b.rrfScore, a.rrfScore);
  }

  /** What the caller gets: of the n ids of the two lists as many as slice(0, topK) keeps, numbered 1, 2, ...,
      each with its record and its rounded sum; higher sums first, and among equal ones the id that appeared
      first. */
  lemma ResultsAreRanked(v: seq<Item>, w: seq<Item>, k: real, topK: int)
    requires NoPole(k)
    ensures var results, n := Formatted(Take(Ranking(v, w, k), topK)), |IdSet(v + w)|;
      && |results| == (if topK >= n then n else if topK >= 0 then topK else if -topK <= n then n + topK else 0)
      && (forall i: nat | i < |results| :: Explained(results[i], i, v, w, k))
      && forall i: nat, j: nat | i < j < |results| ::
           && results[i].entry.chunkId != results[j].entry.chunkId && results[i].score >= results[j].score
           && Ahead(v, w, k, results[i].entry.chunkId, results[j].entry.chunkId)
  {
    hide Ranking, EntryOf, Ids, Describes, Ahead, RoundSix, Rounded, SumFrom;
    var r, results := Ranking(v, w, k), Formatted(Take(Ranking(v, w, k), topK));
    RankingIsCorrect(v, w, k);
    IdsAreIdSet(v + w);
    forall i: nat | i < |results| ensures Explained(results[i], i, v, w, k) {
      assert r[i] in r;
      DescribedRounds(r[i], v, w, k);
    }
    forall i: nat, j: nat | i < j < |results|
      ensures results[i].entry.chunkId != results[j].entry.chunkId && results[i].score >= results[j].score
      ensures Ahead(v, w, k, results[i].entry.chunkId, results[j].entry.chunkId)
    {
      RankedAhead(v, w, k, i, j);
    }
  }

  lemma DescribedRounds(e: Entry, v: seq<Item>, w: seq<Item>, k: real)
    requires NoPole(k) && e.chunkId in Ids(v + w) && e == EntryOf(v, w, e.chunkId, k)
    ensures Describes(e, v, w, k) && e.rrfScore == Sum(v, w, e.chunkId, k)
    ensures Rounded(RoundSix(e.rrfScore), e.rrfScore)
  {
    hide EntryOf, Ids, RoundSix, Rounded, SumFrom, LastAt;
    EntryDescribes(v, w, e.chunkId, k);
    RoundSixRounds(e.rrfScore);
  }
}
