/** Reciprocal rank fusion: two ranked result lists are merged through an insertion-ordered map,
    sorted by accumulated score and cut. */
module RankFusion {
  import opened Outcomes

  /** A search result; an empty chunk id stands for a missing one. */
  datatype Item = Item(chunkId: string, documentId: string, content: string, pageNumber: Option<int>,
                       chunkIndex: int, metadata: Option<string>, score: Option<real>)

  datatype Entry = Entry(chunkId: string, documentId: string, content: string, pageNumber: Option<int>,
                         chunkIndex: int, metadata: string,
                         vectorRank: Option<nat>, keywordRank: Option<nat>,
                         vectorScore: Option<real>, keywordScore: Option<real>, rrfScore: real)

  datatype Fused = Fused(entry: Entry, fusedRank: nat, score: real)

  /** A smoothing constant for which no rank 1, 2, ... divides by zero: anything but a negative integer. */
  predicate NoPole(k: real) {
    k > -1.0 || k.Floor as real != k
  }

  lemma FloorOfWhole(m: int)
    ensures (m as real).Floor == m
  {
  }

  lemma NeverZero(k: real, rank: nat)
    requires NoPole(k) && rank >= 1
    ensures k + rank as real != 0.0
  {
    var m: int := 0 - rank;
    FloorOfWhole(m);
    assert m as real == -(rank as real);
  }

  function Contribution(k: real, rank: nat): real
    requires NoPole(k) && rank >= 1
  {
    NeverZero(k, rank);
    1.0 / (k + rank as real)
  }

  /** Number(x.toFixed(6)): the nearest multiple of 10^-6, ties away from zero. */
  function RoundSix(x: real): real {
    if x < 0.0 then -((-x * 1000000.0 + 0.5).Floor as real) / 1000000.0
    else (x * 1000000.0 + 0.5).Floor as real / 1000000.0
  }

  // ---- What the map holds, read off the two lists ----

  /** The ids of a list in order of first appearance. */
  function Ids(list: seq<Item>): seq<string> {
    if list == [] then []
    else
      var before, id := Ids(list[..|list| - 1]), list[|list| - 1].chunkId;
      if id == "" || id in before then before else before + [id]
  }

  /** The sum of the contributions of all positions of an id. */
  function ScoreIn(list: seq<Item>, id: string, k: real): real
    requires NoPole(k)
  {
    if list == [] then 0.0
    else
      var before := ScoreIn(list[..|list| - 1], id, k);
      if list[|list| - 1].chunkId == id then before + Contribution(k, |list|) else before
  }

  /** The rank and the own score of an id's last position. */
  function LastIn(list: seq<Item>, id: string): Option<(nat, Option<real>)> {
    if list == [] then None
    else if list[|list| - 1].chunkId == id then Some((|list|, list[|list| - 1].score))
    else LastIn(list[..|list| - 1], id)
  }

  function RankIn(list: seq<Item>, id: string): Option<nat> {
    match LastIn(list, id) case None => None case Some(p) => Some(p.0)
  }

  function OwnScoreIn(list: seq<Item>, id: string): Option<real> {
    match LastIn(list, id) case None => None case Some(p) => p.1
  }

  /** The item an id first appears with. */
  function FirstOf(list: seq<Item>, id: string): Item
    requires id in Ids(list)
  {
    if id in Ids(list[..|list| - 1]) then FirstOf(list[..|list| - 1], id) else list[|list| - 1]
  }

  /** The reciprocal rank fusion score over both lists. */
  function Total(v: seq<Item>, w: seq<Item>, id: string, k: real): real
    requires NoPole(k)
  {
    ScoreIn(v, id, k) + ScoreIn(w, id, k)
  }

  function EntryOf(v: seq<Item>, w: seq<Item>, id: string, k: real): Entry
    requires NoPole(k) && id in Ids(v + w)
  {
    var item := FirstOf(v + w, id);
    Entry(id, item.documentId, item.content, item.pageNumber, item.chunkIndex, item.metadata.GetOr("{}"),
          RankIn(v, id), RankIn(w, id), OwnScoreIn(v, id), OwnScoreIn(w, id), Total(v, w, id, k))
  }

  function Entries(v: seq<Item>, w: seq<Item>, k: real): (es: seq<Entry>)
    requires NoPole(k)
    ensures |es| == |Ids(v + w)|
  {
    seq(|Ids(v + w)|, i requires 0 <= i < |Ids(v + w)| => EntryOf(v, w, Ids(v + w)[i], k))
  }

  // ---- The stable sort ----

  function Insert(e: Entry, sorted: seq<Entry>): seq<Entry> {
    if sorted == [] || sorted[|sorted| - 1].rrfScore >= e.rrfScore then sorted + [e]
    else Insert(e, sorted[..|sorted| - 1]) + [sorted[|sorted| - 1]]
  }

  /** Stable descending sort by score. */
  function SortDescending(es: seq<Entry>): seq<Entry> {
    if es == [] then [] else Insert(es[|es| - 1], SortDescending(es[..|es| - 1]))
  }

  /** The whole fused ranking, before the cut. */
  function Ranking(v: seq<Item>, w: seq<Item>, k: real): seq<Entry>
    requires NoPole(k)
  {
    SortDescending(Entries(v, w, k))
  }

  function Formatted(es: seq<Entry>): (fs: seq<Fused>)
    ensures |fs| == |es|
  {
    seq(|es|, i requires 0 <= i < |es| =>
        Fused(es[i].(rrfScore := RoundSix(es[i].rrfScore)), i + 1, RoundSix(es[i].rrfScore)))
  }

  /** How many elements slice(0, n) keeps: a negative n drops that many from the end. */
  function Kept(length: nat, n: int): (m: nat)
    ensures m <= length
  {
    if n >= length then length else if n >= 0 then n else if length + n >= 0 then length + n else 0
  }

  function Take<T>(s: seq<T>, n: int): seq<T> {
    s[..Kept(|s|, n)]
  }

  // ---- The loops over the map ----

  /** The map's contents: ids in insertion order, with their records. */
  ghost predicate Holds(order: seq<string>, entries: map<string, Entry>, v: seq<Item>, w: seq<Item>, k: real)
    requires NoPole(k)
  {
    && order == Ids(v + w)
    && (forall id :: id in entries <==> id in order)
    && forall id | id in entries :: entries[id] == EntryOf(v, w, id, k)
  }

  lemma {:induction false} IdsMembers(list: seq<Item>, id: string)
    ensures id in Ids(list) <==> id != "" && exists i | 0 <= i < |list| :: list[i].chunkId == id
  {
    if list == [] {
    } else {
      var init := list[..|list| - 1];
      IdsMembers(init, id);
      if i :| 0 <= i < |init| && init[i].chunkId == id {
        assert list[i].chunkId == id;
      }
      if i :| 0 <= i < |list| && list[i].chunkId == id {
        assert i < |init| ==> init[i].chunkId == id;
      }
    }
  }

  lemma {:induction false} AbsentScoresNothing(list: seq<Item>, id: string, k: real)
    requires NoPole(k) && id != "" && id !in Ids(list)
    ensures ScoreIn(list, id, k) == 0.0 && LastIn(list, id) == None
  {
    if list == [] {
    } else {
      AbsentScoresNothing(list[..|list| - 1], id, k);
    }
  }

  lemma {:induction false} IdsGrow(a: seq<Item>, b: seq<Item>, id: string)
    ensures id in Ids(a) ==> id in Ids(a + b)
    ensures id in Ids(b) ==> id in Ids(a + b)
  {
    IdsMembers(a, id);
    IdsMembers(b, id);
    IdsMembers(a + b, id);
    if i :| 0 <= i < |a| && a[i].chunkId == id {
      assert (a + b)[i].chunkId == id;
    }
    if i :| 0 <= i < |b| && b[i].chunkId == id {
      assert (a + b)[|a| + i].chunkId == id;
    }
  }

  lemma IdsSnoc(list: seq<Item>, item: Item)
    ensures Ids(list + [item]) ==
            if item.chunkId == "" || item.chunkId in Ids(list) then Ids(list) else Ids(list) + [item.chunkId]
  {
    assert (list + [item])[..|list|] == list;
  }

  /** What one more item does to the scores and ranks of an id. */
  lemma ScoresSnoc(list: seq<Item>, item: Item, id: string, k: real)
    requires NoPole(k)
    ensures ScoreIn(list + [item], id, k) ==
            ScoreIn(list, id, k) + if item.chunkId == id then Contribution(k, |list| + 1) else 0.0
    ensures LastIn(list + [item], id) == if item.chunkId == id then Some((|list| + 1, item.score)) else LastIn(list, id)
  {
    assert (list + [item])[..|list|] == list;
  }

  lemma FirstSnoc(list: seq<Item>, item: Item, id: string)
    requires id in Ids(list + [item])
    ensures FirstOf(list + [item], id) == if id in Ids(list) then FirstOf(list, id) else item
    ensures id !in Ids(list) ==> item.chunkId == id != ""
  {
    assert (list + [item])[..|list|] == list;
  }

  lemma NothingScores(id: string, k: real)
    requires NoPole(k)
    ensures ScoreIn([], id, k) == 0.0 && LastIn([], id) == None
  {
  }

  /** The record of an id first met in the vector list. */
  function FromVector(item: Item, rank: nat, k: real): Entry
    requires NoPole(k) && rank >= 1
  {
    Entry(item.chunkId, item.documentId, item.content, item.pageNumber, item.chunkIndex, item.metadata.GetOr("{}"),
          Some(rank), None, item.score, None, Contribution(k, rank))
  }

  /** The record of an id first met in the keyword list. */
  function FromKeyword(item: Item, rank: nat, k: real): Entry
    requires NoPole(k) && rank >= 1
  {
    Entry(item.chunkId, item.documentId, item.content, item.pageNumber, item.chunkIndex, item.metadata.GetOr("{}"),
          None, Some(rank), None, item.score, Contribution(k, rank))
  }

  /** One more vector result: a new record, an updated one, or nothing to do. */
  lemma VectorStep(v: seq<Item>, item: Item, id: string, k: real)
    requires NoPole(k) && id in Ids(v + [item] + [])
    ensures EntryOf(v + [item], [], id, k) ==
            if id !in Ids(v + []) then FromVector(item, |v| + 1, k)
            else if id != item.chunkId then EntryOf(v, [], id, k)
            else var e := EntryOf(v, [], id, k);
              e.(vectorRank := Some(|v| + 1), vectorScore := item.score,
                 rrfScore := e.rrfScore + Contribution(k, |v| + 1))
  {
    hide FirstOf, Ids, ScoreIn, LastIn, Contribution;
    assert v + [] == v && v + [item] + [] == v + [item];
    FirstSnoc(v, item, id);
    ScoresSnoc(v, item, id, k);
    NothingScores(id, k);
    if id !in Ids(v) {
      AbsentScoresNothing(v, id, k);
    }
  }

  /** One more keyword result. */
  lemma KeywordStep(v: seq<Item>, w: seq<Item>, item: Item, id: string, k: real)
    requires NoPole(k) && id in Ids(v + (w + [item]))
    ensures EntryOf(v, w + [item], id, k) ==
            if id !in Ids(v + w) then FromKeyword(item, |w| + 1, k)
            else if id != item.chunkId then EntryOf(v, w, id, k)
            else var e := EntryOf(v, w, id, k);
              e.(keywordRank := Some(|w| + 1), keywordScore := item.score,
                 rrfScore := e.rrfScore + Contribution(k, |w| + 1))
  {
    hide FirstOf, Ids, ScoreIn, LastIn, Contribution;
    assert v + (w + [item]) == v + w + [item];
    FirstSnoc(v + w, item, id);
    ScoresSnoc(w, item, id, k);
    if id !in Ids(v + w) {
      IdsGrow(v, w, id);
      AbsentScoresNothing(v, id, k);
      AbsentScoresNothing(w, id, k);
    }
  }

  /** The first loop. */
  method AddVectorResults(v: seq<Item>, k: real) returns (order: seq<string>, entries: map<string, Entry>)
    requires NoPole(k)
    ensures Holds(order, entries, v, [], k)
  {
    hide EntryOf, Ids;
    order, entries := [], map[];
    IdsOfNone();
    assert v[..0] + [] == [];
    for index := 0 to |v|
      invariant Holds(order, entries, v[..index], [], k)
    {
      var item, rank := v[index], index + 1;
      ghost var seen := v[..index];
      assert v[..index + 1] == seen + [item] && seen + [item] + [] == seen + [] + [item];
      IdsSnoc(seen + [], item);
      forall id | id in Ids(seen + [item] + []) {
        VectorStep(seen, item, id, k);
      }
      if item.chunkId != "" {
        var contribution := Contribution(k, rank);
        if item.chunkId !in entries {
          order := order + [item.chunkId];
          entries := entries[item.chunkId :=
            Entry(item.chunkId, item.documentId, item.content, item.pageNumber, item.chunkIndex,
                  item.metadata.GetOr("{}"),
                  Some(rank), None, item.score, None, contribution)];
        } else {
          var existing := entries[item.chunkId];
          entries := entries[item.chunkId :=
            existing.(vectorRank := Some(rank), vectorScore := item.score,
                      rrfScore := existing.rrfScore + contribution)];
        }
      } else {
        NoEmptyId(seen + []);
      }
    }
    assert v[..|v|] == v;
  }

  lemma IdsOfNone()
    ensures Ids([]) == []
  {
  }

  lemma NoEmptyId(list: seq<Item>)
    ensures "" !in Ids(list)
  {
    IdsMembers(list, "");
  }

  /** The second loop. */
  method AddKeywordResults(v: seq<Item>, w: seq<Item>, k: real, order0: seq<string>, entries0: map<string, Entry>)
    returns (order: seq<string>, entries: map<string, Entry>)
    requires NoPole(k) && Holds(order0, entries0, v, [], k)
    ensures Holds(order, entries, v, w, k)
  {
    hide EntryOf, Ids;
    order, entries := order0, entries0;
    for index := 0 to |w|
      invariant Holds(order, entries, v, w[..index], k)
    {
      var item, rank := w[index], index + 1;
      ghost var seen := w[..index];
      assert w[..index + 1] == seen + [item] && v + (seen + [item]) == v + seen + [item];
      IdsSnoc(v + seen, item);
      forall id | id in Ids(v + (seen + [item])) {
        KeywordStep(v, seen, item, id, k);
      }
      if item.chunkId != "" {
        var contribution := Contribution(k, rank);
        if item.chunkId !in entries {
          order := order + [item.chunkId];
          entries := entries[item.chunkId :=
            Entry(item.chunkId, item.documentId, item.content, item.pageNumber, item.chunkIndex,
                  item.metadata.GetOr("{}"),
                  None, Some(rank), None, item.score, contribution)];
        } else {
          var existing := entries[item.chunkId];
          entries := entries[item.chunkId :=
            existing.(keywordRank := Some(rank), keywordScore := item.score,
                      rrfScore := existing.rrfScore + contribution)];
        }
      } else {
        NoEmptyId(v + seen);
      }
    }
    assert w[..|w|] == w;
  }

  /** Array.from(map.values()): the records in insertion order. */
  function ValuesInOrder(order: seq<string>, entries: map<string, Entry>): (es: seq<Entry>)
    requires forall i | 0 <= i < |order| :: order[i] in entries
    ensures |es| == |order|
  {
    seq(|order|, i requires 0 <= i < |order| => entries[order[i]])
  }

  /** fuseResults: the first topK of the ranking, with ranks and six-digit scores. */
  method FuseResults(v: seq<Item>, w: seq<Item>, k: real, topK: int) returns (results: seq<Fused>)
    requires NoPole(k)
    ensures results == Formatted(Take(Ranking(v, w, k), topK))
  {
    var order, entries := AddVectorResults(v, k);
    order, entries := AddKeywordResults(v, w, k, order, entries);
    var values := ValuesInOrder(order, entries);
    assert values == Entries(v, w, k);
    results := Formatted(Take(SortDescending(values), topK));
  }

  // ---- What the ranking is ----

  /** Higher score first; equal scores keep their order in the input. */
  ghost predicate Outranks(es: seq<Entry>, a: Entry, b: Entry) {
    || a.rrfScore > b.rrfScore
    || (a.rrfScore == b.rrfScore && exists p, q | 0 <= p < q < |es| :: es[p] == a && es[q] == b)
  }

  ghost predicate Descending(es: seq<Entry>) {
    forall i, j | 0 <= i < j < |es| :: es[i].rrfScore >= es[j].rrfScore
  }

  lemma LastStays<T>(init: seq<T>, last: T, p: nat, mid: seq<T>)
    requires p <= |init|
    ensures (init[..p] + mid + init[p..]) + [last] == (init + [last])[..p] + mid + (init + [last])[p..]
  {
    assert (init + [last])[..p] == init[..p] && (init + [last])[p..] == init[p..] + [last];
  }

  lemma {:induction false} InsertPlace(e: Entry, sorted: seq<Entry>) returns (p: nat)
    requires Descending(sorted)
    ensures p <= |sorted| && Insert(e, sorted) == sorted[..p] + [e] + sorted[p..]
    ensures forall i | 0 <= i < p :: sorted[i].rrfScore >= e.rrfScore
    ensures forall i | p <= i < |sorted| :: sorted[i].rrfScore < e.rrfScore
  {
    if sorted == [] || sorted[|sorted| - 1].rrfScore >= e.rrfScore {
      p := |sorted|;
      assert sorted[..p] == sorted;
    } else {
      var init, last := sorted[..|sorted| - 1], sorted[|sorted| - 1];
      p := InsertPlace(e, init);
      assert Insert(e, sorted) == Insert(e, init) + [last];
      assert sorted == init + [last];
      LastStays(init, last, p, [e]);
    }
  }

  lemma InsertKeepsDescending(e: Entry, sorted: seq<Entry>)
    requires Descending(sorted)
    ensures Descending(Insert(e, sorted)) && |Insert(e, sorted)| == |sorted| + 1
  {
    var p := InsertPlace(e, sorted);
    var t := sorted[..p] + [e] + sorted[p..];
    forall i, j | 0 <= i < j < |t| ensures t[i].rrfScore >= t[j].rrfScore {
    }
  }

  lemma {:induction false} SortDescends(es: seq<Entry>)
    ensures Descending(SortDescending(es)) && |SortDescending(es)| == |es|
  {
    if es == [] {
    } else {
      var n := |es| - 1;
      SortDescends(es[..n]);
      InsertKeepsDescending(es[n], SortDescending(es[..n]));
    }
  }

  lemma SnocAdds<T>(init: seq<T>, e: T)
    ensures multiset(init + [e]) == multiset(init) + multiset{e}
  {
  }

  lemma {:induction false} InsertAdds(e: Entry, sorted: seq<Entry>)
    ensures multiset(Insert(e, sorted)) == multiset(sorted) + multiset{e}
  {
    if sorted == [] || sorted[|sorted| - 1].rrfScore >= e.rrfScore {
      SnocAdds(sorted, e);
    } else {
      var init, last := sorted[..|sorted| - 1], sorted[|sorted| - 1];
      InsertAdds(e, init);
      SnocAdds(init, last);
      SnocAdds(Insert(e, init), last);
      assert sorted == init + [last];
    }
  }

  /** The sort only rearranges. */
  lemma {:induction false} SortPermutes(es: seq<Entry>)
    ensures multiset(SortDescending(es)) == multiset(es)
  {
    hide Insert;
    if es == [] {
    } else {
      var n := |es| - 1;
      SortPermutes(es[..n]);
      InsertAdds(es[n], SortDescending(es[..n]));
      SnocAdds(es[..n], es[n]);
      assert es == es[..n] + [es[n]];
    }
  }

  ghost predicate PairwiseOutranks(es: seq<Entry>, t: seq<Entry>) {
    forall i, j | 0 <= i < j < |t| :: Outranks(es, t[i], t[j])
  }

  /** Putting a new last entry where the sort puts it. */
  lemma InsertKeepsRanks(init: seq<Entry>, e: Entry, sorted: seq<Entry>, p: nat)
    requires PairwiseOutranks(init, sorted) && (forall i | 0 <= i < |sorted| :: sorted[i] in init)
    requires p <= |sorted|
    requires forall i | 0 <= i < p :: sorted[i].rrfScore >= e.rrfScore
    requires forall i | p <= i < |sorted| :: sorted[i].rrfScore < e.rrfScore
    ensures PairwiseOutranks(init + [e], sorted[..p] + [e] + sorted[p..])
  {
    var t, es := sorted[..p] + [e] + sorted[p..], init + [e];
    forall i, j | 0 <= i < j < |t| ensures Outranks(es, t[i], t[j]) {
      if j == p {
        var q :| 0 <= q < |init| && init[q] == sorted[i];
        assert es[q] == t[i] && es[|init|] == t[j];
      } else if i != p {
        var i', j' := if i < p then i else i - 1, if j < p then j else j - 1;
        assert t[i] == sorted[i'] && t[j] == sorted[j'];
        OutranksGrows(init, e, sorted[i'], sorted[j']);
      }
    }
  }

  lemma NothingOutranked()
    ensures PairwiseOutranks([], [])
  {
  }

  /** The sort never lets an entry pass one it does not outrank. */
  lemma {:induction false} SortIsStable(es: seq<Entry>)
    ensures PairwiseOutranks(es, SortDescending(es))
  {
    hide Insert, PairwiseOutranks;
    if es == [] {
      NothingOutranked();
    } else {
      var n := |es| - 1;
      var sorted := SortDescending(es[..n]);
      SortIsStable(es[..n]);
      SortDescends(es[..n]);
      SortedMembers(es[..n]);
      var p := InsertPlace(es[n], sorted);
      InsertKeepsRanks(es[..n], es[n], sorted, p);
      assert es == es[..n] + [es[n]];
    }
  }

  lemma SortedMembers(es: seq<Entry>)
    ensures forall e :: e in SortDescending(es) <==> e in es
    ensures forall i | 0 <= i < |SortDescending(es)| :: SortDescending(es)[i] in es
  {
    SortPermutes(es);
    forall e ensures e in SortDescending(es) <==> e in es {
      assert e in multiset(SortDescending(es)) <==> e in multiset(es);
    }
  }

  lemma OutranksGrows(init: seq<Entry>, e: Entry, a: Entry, b: Entry)
    requires Outranks(init, a, b)
    ensures Outranks(init + [e], a, b)
  {
    if a.rrfScore == b.rrfScore {
      var p, q :| 0 <= p < q < |init| && init[p] == a && init[q] == b;
      assert (init + [e])[p] == a && (init + [e])[q] == b;
    }
  }

  lemma {:induction false} IdsDistinct(list: seq<Item>)
    ensures forall i, j | 0 <= i < j < |Ids(list)| :: Ids(list)[i] != Ids(list)[j]
  {
    if list == [] {
    } else {
      IdsDistinct(list[..|list| - 1]);
    }
  }

  /** a appears before b. */
  ghost predicate Precedes(ids: seq<string>, a: string, b: string) {
    exists p, q | 0 <= p < q < |ids| :: ids[p] == a && ids[q] == b
  }

  lemma RankedEntry(v: seq<Item>, w: seq<Item>, k: real, e: Entry)
    requires NoPole(k) && e in Ranking(v, w, k)
    ensures e.chunkId in Ids(v + w) && e == EntryOf(v, w, e.chunkId, k)
  {
    hide EntryOf, SortDescending, Ids;
    var es := Entries(v, w, k);
    SortedMembers(es);
    var p :| 0 <= p < |es| && es[p] == e;
    EntryIdIs(v, w, Ids(v + w)[p], k);
  }

  lemma IdIsRanked(v: seq<Item>, w: seq<Item>, k: real, id: string)
    requires NoPole(k) && id in Ids(v + w)
    ensures EntryOf(v, w, id, k) in Ranking(v, w, k)
  {
    hide EntryOf, SortDescending, Ids;
    var es := Entries(v, w, k);
    SortedMembers(es);
    var p :| 0 <= p < |Ids(v + w)| && Ids(v + w)[p] == id;
    assert es[p] == EntryOf(v, w, id, k);
  }

  /** Entries in the order of their ids. */
  lemma PrecedesAs(v: seq<Item>, w: seq<Item>, k: real, a: Entry, b: Entry)
    requires NoPole(k)
    requires exists p, q | 0 <= p < q < |Entries(v, w, k)| :: Entries(v, w, k)[p] == a && Entries(v, w, k)[q] == b
    ensures Precedes(Ids(v + w), a.chunkId, b.chunkId) && a.chunkId != b.chunkId
  {
    hide EntryOf, Ids;
    var es, ids := Entries(v, w, k), Ids(v + w);
    var p, q :| 0 <= p < q < |es| && es[p] == a && es[q] == b;
    EntryIdIs(v, w, ids[p], k);
    EntryIdIs(v, w, ids[q], k);
    IdsDistinct(v + w);
  }

  /** The fused ranking: every id of either list exactly once, with its record and score; a higher
      score comes first, and among equals the id that appeared first, vector list before keyword
      list. This determines the ranking. */
  lemma RankingIsCorrect(v: seq<Item>, w: seq<Item>, k: real)
    requires NoPole(k)
    ensures |Ranking(v, w, k)| == |Ids(v + w)|
    ensures forall e :: e in Ranking(v, w, k) <==> e.chunkId in Ids(v + w) && e == EntryOf(v, w, e.chunkId, k)
    ensures forall i, j | 0 <= i < j < |Ranking(v, w, k)| ::
              var a, b := Ranking(v, w, k)[i], Ranking(v, w, k)[j];
              && a.chunkId != b.chunkId
              && (a.rrfScore > b.rrfScore || (a.rrfScore == b.rrfScore && Precedes(Ids(v + w), a.chunkId, b.chunkId)))
  {
    hide EntryOf, SortDescending, Ids, Precedes;
    var es := Entries(v, w, k);
    SortDescends(es);
    SortIsStable(es);
    forall e ensures e in Ranking(v, w, k) <==> e.chunkId in Ids(v + w) && e == EntryOf(v, w, e.chunkId, k) {
      if e in Ranking(v, w, k) {
        RankedEntry(v, w, k, e);
      }
      if e.chunkId in Ids(v + w) {
        IdIsRanked(v, w, k, e.chunkId);
      }
    }
    forall i, j | 0 <= i < j < |Ranking(v, w, k)|
      ensures var a, b := Ranking(v, w, k)[i], Ranking(v, w, k)[j];
        && a.chunkId != b.chunkId
        && (a.rrfScore > b.rrfScore || (a.rrfScore == b.rrfScore && Precedes(Ids(v + w), a.chunkId, b.chunkId)))
    {
      var a, b := Ranking(v, w, k)[i], Ranking(v, w, k)[j];
      assert Outranks(es, a, b);
      RankedEntry(v, w, k, a);
      RankedEntry(v, w, k, b);
      if a.rrfScore == b.rrfScore {
        PrecedesAs(v, w, k, a, b);
      }
    }
  }

  lemma EntryIdIs(v: seq<Item>, w: seq<Item>, id: string, k: real)
    requires NoPole(k) && id in Ids(v + w)
    ensures EntryOf(v, w, id, k).chunkId == id
  {
  }

  // ---- The cut and the rounding ----

  lemma FloorMonotone(x: real, y: real)
    requires x <= y
    ensures x.Floor <= y.Floor
  {
  }

  lemma RoundingMonotone(x: real, y: real)
    requires x <= y
    ensures RoundSix(x) <= RoundSix(y)
  {
    if x >= 0.0 {
      FloorMonotone(x * 1000000.0 + 0.5, y * 1000000.0 + 0.5);
    } else if y < 0.0 {
      FloorMonotone(-y * 1000000.0 + 0.5, -x * 1000000.0 + 0.5);
    } else {
      FloorMonotone(0.5, -x * 1000000.0 + 0.5);
      FloorMonotone(0.5, y * 1000000.0 + 0.5);
    }
  }

  /** No dropped id scores more than a kept one. */
  lemma CutKeepsTheBest(v: seq<Item>, w: seq<Item>, k: real, topK: int, kept: Entry, id: string)
    requires NoPole(k) && kept in Take(Ranking(v, w, k), topK)
    requires id in Ids(v + w) && forall e | e in Take(Ranking(v, w, k), topK) :: e.chunkId != id
    ensures Total(v, w, id, k) <= Total(v, w, kept.chunkId, k)
  {
    hide SortDescending, Ids, EntryOf;
    var r := Ranking(v, w, k);
    SortDescends(Entries(v, w, k));
    var i :| 0 <= i < |Take(r, topK)| && Take(r, topK)[i] == kept;
    IdIsRanked(v, w, k, id);
    EntryIdIs(v, w, id, k);
    var j :| 0 <= j < |r| && r[j] == EntryOf(v, w, id, k);
    assert forall m | 0 <= m < |Take(r, topK)| :: Take(r, topK)[m] in Take(r, topK);
    assert r[i] in r;
    RankedEntry(v, w, k, r[i]);
    EntryScoreIs(v, w, kept.chunkId, k);
    EntryScoreIs(v, w, id, k);
  }

  lemma EntryScoreIs(v: seq<Item>, w: seq<Item>, id: string, k: real)
    requires NoPole(k) && id in Ids(v + w)
    ensures EntryOf(v, w, id, k).rrfScore == Total(v, w, id, k)
  {
  }

  // ---- Swapping the lists ----

  /** Swapping the two lists keeps the ids and every id's score. */
  lemma SwapKeepsScores(v: seq<Item>, w: seq<Item>, k: real, e: Entry)
    requires NoPole(k) && e in Ranking(v, w, k)
    ensures exists f :: f in Ranking(w, v, k) && f.chunkId == e.chunkId && f.rrfScore == e.rrfScore
  {
    hide SortDescending, Ids, EntryOf;
    RankedEntry(v, w, k, e);
    IdsOfBoth(v, w, e.chunkId);
    IdsOfBoth(w, v, e.chunkId);
    IdIsRanked(w, v, k, e.chunkId);
    EntryIdIs(w, v, e.chunkId, k);
    EntryScoreIs(v, w, e.chunkId, k);
    EntryScoreIs(w, v, e.chunkId, k);
  }

  lemma IdsOfBoth(v: seq<Item>, w: seq<Item>, id: string)
    ensures id in Ids(v + w) <==> id in Ids(v) || id in Ids(w)
  {
    IdsGrow(v, w, id);
    IdsMembers(v, id);
    IdsMembers(w, id);
    IdsMembers(v + w, id);
    if i :| 0 <= i < |v + w| && (v + w)[i].chunkId == id {
      if i < |v| {
        assert v[i].chunkId == id;
      } else {
        assert w[i - |v|].chunkId == id;
      }
    }
  }

  // ---- Found by both retrievers ----

  ghost predicate DistinctIds(list: seq<Item>) {
    forall i, j | 0 <= i < j < |list| && list[i].chunkId == list[j].chunkId :: list[i].chunkId == ""
  }

  /** In a list of distinct ids, an id scores once, at its one rank. */
  lemma {:induction false} ScoreOnce(list: seq<Item>, id: string, k: real) returns (rank: nat)
    requires NoPole(k) && DistinctIds(list) && id in Ids(list)
    ensures 1 <= rank <= |list| && ScoreIn(list, id, k) == Contribution(k, rank) && RankIn(list, id) == Some(rank)
  {
    var init, last := list[..|list| - 1], list[|list| - 1];
    IdsMembers(list, id);
    if last.chunkId == id {
      rank := |list|;
      forall i | 0 <= i < |init| ensures init[i].chunkId != id {
        assert list[i].chunkId == list[|list| - 1].chunkId ==> list[i].chunkId == "";
      }
      IdsMembers(init, id);
      AbsentScoresNothing(init, id, k);
    } else {
      rank := ScoreOnce(init, id, k);
    }
  }

  lemma Reciprocal(a: real, b: real)
    requires 0.0 < a <= b
    ensures 1.0 / b <= 1.0 / a
  {
  }

  lemma ReciprocalStrict(a: real, b: real)
    requires 0.0 < a < b
    ensures 1.0 / b < 1.0 / a
  {
  }

  lemma Halves(h: real)
    requires h > 0.0
    ensures 1.0 / (h + h) + 1.0 / (h + h) == 1.0 / h
  {
    var q := 1.0 / (h + h);
    assert q * (h + h) == 1.0;
    assert (q + q) * h == 1.0;
  }

  lemma TwoBeatOne(k: real, r1: nat, r2: nat, r: nat)
    requires NoPole(k) && r >= 1 && r1 >= 1 && r2 >= 1
    requires r1 as real <= k + 1.0 && r2 as real <= k + 1.0
    ensures Contribution(k, r1) + Contribution(k, r2) > Contribution(k, r)
  {
    var h := k + 1.0;
    ReciprocalStrict(k + r1 as real, h + h);
    ReciprocalStrict(k + r2 as real, h + h);
    Reciprocal(h, k + r as real);
    Halves(h);
  }

  /** With distinct ids in each list and at most k + 1 entries, every chunk found by both
      retrievers is ranked strictly ahead of every chunk found by only one. */
  lemma BothBeatOne(v: seq<Item>, w: seq<Item>, k: real, i: nat, j: nat)
    requires NoPole(k) && DistinctIds(v) && DistinctIds(w)
    requires |v| as real <= k + 1.0 && |w| as real <= k + 1.0
    requires i < |Ranking(v, w, k)| && j < |Ranking(v, w, k)|
    requires Ranking(v, w, k)[i].vectorRank.Some? && Ranking(v, w, k)[i].keywordRank.Some?
    requires Ranking(v, w, k)[j].vectorRank.None? || Ranking(v, w, k)[j].keywordRank.None?
    ensures i < j && Ranking(v, w, k)[i].rrfScore > Ranking(v, w, k)[j].rrfScore
  {
    hide SortDescending, Ids;
    var r := Ranking(v, w, k);
    SortDescends(Entries(v, w, k));
    RankedEntry(v, w, k, r[i]);
    RankedEntry(v, w, k, r[j]);
    BothScoreMore(v, w, k, r[i].chunkId, r[j].chunkId);
  }

  lemma BothScoreMore(v: seq<Item>, w: seq<Item>, k: real, both: string, one: string)
    requires NoPole(k) && DistinctIds(v) && DistinctIds(w)
    requires |v| as real <= k + 1.0 && |w| as real <= k + 1.0
    requires both in Ids(v + w) && RankIn(v, both).Some? && RankIn(w, both).Some?
    requires one in Ids(v + w) && (RankIn(v, one).None? || RankIn(w, one).None?)
    ensures Total(v, w, both, k) > Total(v, w, one, k)
  {
    hide Ids, LastIn, ScoreIn, Contribution;
    NoEmptyId(v + w);
    RankedIsPresent(v, both);
    RankedIsPresent(w, both);
    RankedIsPresent(v, one);
    RankedIsPresent(w, one);
    var r1 := ScoreOnce(v, both, k);
    var r2 := ScoreOnce(w, both, k);
    IdsOfBoth(v, w, one);
    if one in Ids(v) {
      var q := ScoreOnce(v, one, k);
      AbsentScoresNothing(w, one, k);
      TwoBeatOne(k, r1, r2, q);
    } else {
      var q := ScoreOnce(w, one, k);
      AbsentScoresNothing(v, one, k);
      TwoBeatOne(k, r1, r2, q);
    }
  }

  lemma {:induction false} RankedIsPresent(list: seq<Item>, id: string)
    requires id != ""
    ensures RankIn(list, id).Some? <==> id in Ids(list)
  {
    if list != [] && list[|list| - 1].chunkId != id {
      RankedIsPresent(list[..|list| - 1], id);
    }
  }

  lemma DifferentIds(list: seq<Item>, i: nat, j: nat)
    requires DistinctIds(list) && i < j < |list| && (list[i].chunkId != "" || list[j].chunkId != "")
    ensures list[i].chunkId != list[j].chunkId
  {
  }

  lemma {:induction false} ScoreAt(list: seq<Item>, p: nat, k: real)
    requires NoPole(k) && DistinctIds(list) && p < |list| && list[p].chunkId != ""
    ensures ScoreIn(list, list[p].chunkId, k) == Contribution(k, p + 1) && list[p].chunkId in Ids(list)
  {
    var init, last, id := list[..|list| - 1], list[|list| - 1], list[p].chunkId;
    if p == |list| - 1 {
      forall i | 0 <= i < |init| ensures init[i].chunkId != id {
        DifferentIds(list, i, p);
      }
      IdsMembers(init, id);
      AbsentScoresNothing(init, id, k);
    } else {
      assert init[p] == list[p];
      DifferentIds(list, p, |list| - 1);
      ScoreAt(init, p, k);
    }
  }

  lemma {:induction false} FirstId(list: seq<Item>)
    requires list != [] && list[0].chunkId != ""
    ensures Ids(list) != [] && Ids(list)[0] == list[0].chunkId
  {
    if |list| == 1 {
      assert list[..0] == [];
    } else {
      FirstId(list[..|list| - 1]);
    }
  }

  /** A chunk last in both of two lists of k + 2 entries scores what the first of one list scores. */
  lemma TieAtLengthTwoMore(v: seq<Item>, w: seq<Item>, k: nat, one: string, both: string)
    requires DistinctIds(v) && DistinctIds(w) && |v| == |w| == k + 2 && both != "" && one != ""
    requires v[0].chunkId == one && v[k + 1].chunkId == both && w[k + 1].chunkId == both && one !in Ids(w)
    ensures Total(v, w, one, k as real) == Total(v, w, both, k as real)
  {
    var c := k as real;
    ScoreAt(v, 0, c);
    ScoreAt(v, k + 1, c);
    ScoreAt(w, k + 1, c);
    AbsentScoresNothing(w, one, c);
    Halves(c + 1.0);
    assert c + (k + 2) as real == (c + 1.0) + (c + 1.0);
  }

  /** There the chunk found twice is even ranked behind, since the other appeared first. */
  lemma TiedIsRankedBehind(v: seq<Item>, w: seq<Item>, k: nat, one: string, both: string, i: nat, j: nat)
    requires DistinctIds(v) && DistinctIds(w) && |v| == |w| == k + 2 && both != "" && one != ""
    requires v[0].chunkId == one && v[k + 1].chunkId == both && w[k + 1].chunkId == both && one !in Ids(w)
    requires var r := Ranking(v, w, k as real); i < |r| && j < |r| && r[i].chunkId == both && r[j].chunkId == one
    ensures j < i
  {
    hide SortDescending, Ids, EntryOf, ScoreIn, Total, Ranking, Precedes;
    var c := k as real;
    var r := Ranking(v, w, c);
    TieAtLengthTwoMore(v, w, k, one, both);
    DifferentIds(v, 0, k + 1);
    RankedEntry(v, w, c, r[i]);
    RankedEntry(v, w, c, r[j]);
    EntryScoreIs(v, w, one, c);
    EntryScoreIs(v, w, both, c);
    FirstId(v + w);
    if i < j {
      RankingIsCorrect(v, w, c);
      NothingPrecedesFirst(v + w, both);
    }
  }

  lemma NothingPrecedesFirst(list: seq<Item>, id: string)
    requires Ids(list) != []
    ensures !Precedes(Ids(list), id, Ids(list)[0])
  {
    IdsDistinct(list);
  }

  function Plain(id: string): Item {
    Item(id, "d", "text", None, 0, None, None)
  }

  function Name(c: char, n: nat): (s: string)
    ensures |s| == n + 1 && forall i | 0 <= i < |s| :: s[i] == c
  {
    seq(n + 1, _ => c)
  }

  /** n differently named items, and a last one. */
  function NamedList(c: char, n: nat, last: string): (list: seq<Item>)
    ensures |list| == n + 1 && list[n].chunkId == last
    ensures forall i | 0 <= i < n :: list[i].chunkId == Name(c, i)
  {
    seq(n, i requires 0 <= i < n => Plain(Name(c, i))) + [Plain(last)]
  }

  lemma NamesDiffer(c: char, n: nat, last: string)
    requires last != "" && last[0] != c
    ensures DistinctIds(NamedList(c, n, last))
  {
    var list := NamedList(c, n, last);
    forall i, j | 0 <= i < j < |list| ensures list[i].chunkId != list[j].chunkId {
      assert list[i].chunkId == Name(c, i);
      if j < n {
        assert |list[j].chunkId| == j + 1;
      } else {
        assert list[i].chunkId[0] == c;
      }
    }
  }

  /** The bound on the length is sharp for every k: there are lists of k + 2 distinct entries in which a
      chunk found by both retrievers only ties with one found by the vector search alone. */
  lemma LongerListsCanTie(k: nat) returns (v: seq<Item>, w: seq<Item>, one: string, both: string)
    ensures DistinctIds(v) && DistinctIds(w) && |v| == |w| == k + 2
    ensures both in Ids(v) && both in Ids(w) && one in Ids(v) && one !in Ids(w)
    ensures Total(v, w, one, k as real) == Total(v, w, both, k as real)
  {
    hide Ids, ScoreIn;
    one, both := Name('v', 0), "s";
    v, w := NamedList('v', k + 1, both), NamedList('w', k + 1, both);
    NamesDiffer('v', k + 1, both);
    NamesDiffer('w', k + 1, both);
    ScoreAt(v, 0, k as real);
    ScoreAt(v, k + 1, k as real);
    ScoreAt(w, k + 1, k as real);
    assert one[0] == 'v';
    forall i | 0 <= i < |w| ensures w[i].chunkId != one {
      if i < k + 1 {
        assert w[i].chunkId[0] == 'w';
      }
    }
    IdsMembers(w, one);
    TieAtLengthTwoMore(v, w, k, one, both);
  }
}
