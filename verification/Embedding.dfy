/** The embedding batcher: texts go to a provider in batches, whose answers are checked and
    concatenated. The provider is arbitrary; it may answer differently each time it is asked. */
module Embedding {
  import opened JsText
  import opened Outcomes

  type Vector = seq<real>

  /** What one call to the provider gives: vectors, something that is no array, or an exception. */
  datatype Answer = Vectors(vectors: seq<Vector>) | NotAnArray | Threw

  /** Asked with the number of the batch (from 0) and its texts. */
  type Provider = (nat, seq<Text>) -> Answer

  datatype EmbeddingError = ProviderThrew | WrongCount(got: nat, want: nat) | WrongDimension(got: nat)

  /** The checks on one batch's answer, in the source's order. */
  function CheckAnswer(answer: Answer, want: nat, dimension: nat): Result<seq<Vector>, EmbeddingError> {
    match answer
    case Threw => Err(ProviderThrew)
    case NotAnArray => Err(WrongCount(0, want))
    case Vectors(vs) =>
      if |vs| != want then Err(WrongCount(|vs|, want))
      else if exists j | 0 <= j < |vs| :: |vs[j]| != dimension then Err(FirstMisfit(vs, dimension))
      else Ok(vs)
  }

  function FirstMisfit(vs: seq<Vector>, dimension: nat): EmbeddingError
    requires exists j | 0 <= j < |vs| :: |vs[j]| != dimension
  {
    if |vs[0]| != dimension then WrongDimension(|vs[0]|) else FirstMisfit(vs[1..], dimension)
  }

  /** The answers to all batches of `texts`, the first of which has number `batch`. */
  function EmbedFrom(texts: seq<Text>, batch: nat, batchSize: nat, dimension: nat, provider: Provider)
    : Result<seq<Vector>, EmbeddingError>
    requires batchSize >= 1
    decreases |texts|
  {
    if texts == [] then Ok([])
    else
      var cut := if batchSize <= |texts| then batchSize else |texts|;
      match CheckAnswer(provider(batch, texts[..cut]), cut, dimension)
      case Err(e) => Err(e)
      case Ok(head) =>
        Prepend(head, EmbedFrom(texts[cut..], batch + 1, batchSize, dimension, provider))
  }

  function Prepend(head: seq<Vector>, r: Result<seq<Vector>, EmbeddingError>): Result<seq<Vector>, EmbeddingError> {
    match r
    case Err(e) => Err(e)
    case Ok(tail) => Ok(head + tail)
  }

  /** Checks each vector's length in turn. */
  method ValidateDimensions(vs: seq<Vector>, dimension: nat) returns (bad: Option<EmbeddingError>)
    ensures bad.None? <==> forall j | 0 <= j < |vs| :: |vs[j]| == dimension
    ensures bad.Some? ==> bad.value == FirstMisfit(vs, dimension)
  {
    for j := 0 to |vs|
      invariant forall i | 0 <= i < j :: |vs[i]| == dimension
    {
      if |vs[j]| != dimension {
        MisfitAt(vs, dimension, j);
        return Some(WrongDimension(|vs[j]|));
      }
    }
    bad := None;
  }

  lemma {:induction false} MisfitAt(vs: seq<Vector>, dimension: nat, j: nat)
    requires j < |vs| && |vs[j]| != dimension && forall i | 0 <= i < j :: |vs[i]| == dimension
    ensures FirstMisfit(vs, dimension) == WrongDimension(|vs[j]|)
  {
    if j == 0 {
    } else {
      assert vs[1..][j - 1] == vs[j];
      MisfitAt(vs[1..], dimension, j - 1);
    }
  }

  /** generateEmbeddings: the batching loop. */
  method GenerateEmbeddings(texts: seq<Text>, batchSize: nat, dimension: nat, provider: Provider)
    returns (r: Result<seq<Vector>, EmbeddingError>)
    requires batchSize >= 1
    ensures r == EmbedFrom(texts, 0, batchSize, dimension, provider)
  {
    var all: seq<Vector> := [];
    var i, batch := 0, 0;
    ghost var goal := EmbedFrom(texts, 0, batchSize, dimension, provider);
    PrependNothing(goal);
    assert texts[0..] == texts;
    while i < |texts|
      invariant 0 <= i <= |texts|
      invariant goal == Prepend(all, EmbedFrom(texts[i..], batch, batchSize, dimension, provider))
    {
      ghost var ahead := EmbedFrom(texts[i..], batch, batchSize, dimension, provider);
      var end := if i + batchSize <= |texts| then i + batchSize else |texts|;
      var slice := texts[i..end];
      CutBatch(texts, i, end);
      var answer := provider(batch, slice);
      match answer {
        case Threw => return Err(ProviderThrew);
        case NotAnArray => return Err(WrongCount(0, |slice|));
        case Vectors(vs) =>
          if |vs| != |slice| {
            return Err(WrongCount(|vs|, |slice|));
          }
          var bad := ValidateDimensions(vs, dimension);
          if bad.Some? {
            return Err(bad.value);
          }
          assert CheckAnswer(answer, |slice|, dimension) == Ok(vs);
          PrependTwice(all, vs, EmbedFrom(texts[end..], batch + 1, batchSize, dimension, provider));
          assert ahead == Prepend(vs, EmbedFrom(texts[end..], batch + 1, batchSize, dimension, provider));
          all := all + vs;
      }
      i := end;
      batch := batch + 1;
    }
    r := Ok(all);
    assert all + [] == all;
  }

  lemma CutBatch(texts: seq<Text>, from: nat, to: nat)
    requires from <= to <= |texts|
    ensures texts[from..][..to - from] == texts[from..to] && texts[from..][to - from..] == texts[to..]
  {
  }

  lemma PrependNothing(r: Result<seq<Vector>, EmbeddingError>)
    ensures Prepend([], r) == r
  {
    if r.Ok? {
      assert [] + r.value == r.value;
    }
  }

  lemma PrependTwice(a: seq<Vector>, b: seq<Vector>, r: Result<seq<Vector>, EmbeddingError>)
    ensures Prepend(a, Prepend(b, r)) == Prepend(a + b, r)
  {
    if r.Ok? {
      assert a + (b + r.value) == a + b + r.value;
    }
  }

  /** The batch that text i belongs to. */
  function BatchOf(texts: seq<Text>, batchSize: nat, i: nat): (b: (nat, nat))
    requires batchSize >= 1 && i < |texts|
    ensures b.0 <= i < b.1 <= |texts| && b.0 == i / batchSize * batchSize
  {
    BatchHolds(batchSize, i);
    var from := i / batchSize * batchSize;
    (from, if from + batchSize <= |texts| then from + batchSize else |texts|)
  }

  lemma BatchHolds(batchSize: nat, i: nat)
    requires batchSize >= 1
    ensures 0 <= i / batchSize * batchSize <= i < i / batchSize * batchSize + batchSize
  {
  }

  /** The vector is what the provider, asked about the batch of text i in its turn, answered at that
      text's place in the batch. */
  predicate OwnAnswer(texts: seq<Text>, batch: nat, batchSize: nat, provider: Provider, i: nat, vector: Vector)
    requires batchSize >= 1 && i < |texts|
  {
    var (from, to) := BatchOf(texts, batchSize, i);
    var answer := provider(batch + i / batchSize, texts[from..to]);
    answer.Vectors? && |answer.vectors| == to - from && answer.vectors[i - from] == vector
  }

  lemma NextBatch(batchSize: nat, i: nat)
    requires 1 <= batchSize <= i
    ensures i / batchSize == (i - batchSize) / batchSize + 1
    ensures i / batchSize * batchSize == (i - batchSize) / batchSize * batchSize + batchSize
  {
    var q := (i - batchSize) / batchSize;
    BatchHolds(batchSize, i - batchSize);
    BatchHolds(batchSize, i);
    assert (q + 1) * batchSize == q * batchSize + batchSize;
    SameQuotient(batchSize, i / batchSize, q + 1, i);
  }

  lemma {:induction false} OneMultipleOn(n: nat, a: nat, b: nat)
    requires a < b
    ensures a * n + n <= b * n
  {
    if b == a + 1 {
      assert (a + 1) * n == a * n + n;
    } else {
      OneMultipleOn(n, a, b - 1);
      assert b * n == (b - 1) * n + n;
    }
  }

  lemma SameQuotient(n: nat, a: nat, b: nat, i: nat)
    requires n >= 1 && a * n <= i < a * n + n && b * n <= i < b * n + n
    ensures a == b
  {
    if a < b {
      OneMultipleOn(n, a, b);
    } else if b < a {
      OneMultipleOn(n, b, a);
    }
  }

  /** Dropping the first batch leaves each later text in its own batch, one turn earlier. */
  lemma OwnAnswerLater(texts: seq<Text>, batch: nat, batchSize: nat, provider: Provider, i: nat, vector: Vector)
    requires 1 <= batchSize <= i < |texts|
    requires OwnAnswer(texts[batchSize..], batch + 1, batchSize, provider, i - batchSize, vector)
    ensures OwnAnswer(texts, batch, batchSize, provider, i, vector)
  {
    NextBatch(batchSize, i);
    var (from, to) := BatchOf(texts, batchSize, i);
    assert texts[batchSize..][from - batchSize..to - batchSize] == texts[from..to];
  }

  /** A successful call returns one vector a text, each of the expected dimension and each the
      provider's answer for that text in the text's own batch. */
  lemma {:induction false} EmbeddingsAlign(texts: seq<Text>, batch: nat, batchSize: nat, dimension: nat,
      provider: Provider)
    requires batchSize >= 1
    requires EmbedFrom(texts, batch, batchSize, dimension, provider).Ok?
    ensures var vs := EmbedFrom(texts, batch, batchSize, dimension, provider).value;
      && |vs| == |texts|
      && forall i: nat | i < |texts| :: |vs[i]| == dimension && OwnAnswer(texts, batch, batchSize, provider, i, vs[i])
    decreases |texts|
  {
    if texts == [] {
    } else {
      var cut := if batchSize <= |texts| then batchSize else |texts|;
      var vs := EmbedFrom(texts, batch, batchSize, dimension, provider).value;
      var rest := texts[cut..];
      EmbeddingsAlign(rest, batch + 1, batchSize, dimension, provider);
      forall i: nat | i < |texts|
        ensures |vs[i]| == dimension && OwnAnswer(texts, batch, batchSize, provider, i, vs[i])
      {
        if i < cut {
          FirstBatch(batchSize, i);
          assert texts[0..cut] == texts[..cut];
        } else {
          OwnAnswerLater(texts, batch, batchSize, provider, i, vs[i]);
        }
      }
    }
  }

  lemma FirstBatch(batchSize: nat, i: nat)
    requires i < batchSize
    ensures i / batchSize == 0
  {
  }

  /** The batch of text i is answered with one vector a text, each of the expected dimension. */
  predicate GoodBatch(texts: seq<Text>, batch: nat, batchSize: nat, dimension: nat, provider: Provider, i: nat)
    requires batchSize >= 1 && i < |texts|
  {
    var (from, to) := BatchOf(texts, batchSize, i);
    var answer := provider(batch + i / batchSize, texts[from..to]);
    answer.Vectors? && |answer.vectors| == to - from && forall v | v in answer.vectors :: |v| == dimension
  }

  lemma GoodBatchLater(texts: seq<Text>, batch: nat, batchSize: nat, dimension: nat, provider: Provider, i: nat)
    requires 1 <= batchSize <= i < |texts|
    ensures GoodBatch(texts, batch, batchSize, dimension, provider, i)
       <==> GoodBatch(texts[batchSize..], batch + 1, batchSize, dimension, provider, i - batchSize)
  {
    NextBatch(batchSize, i);
    var (from, to) := BatchOf(texts, batchSize, i);
    assert texts[batchSize..][from - batchSize..to - batchSize] == texts[from..to];
  }

  lemma GoodFirstBatch(texts: seq<Text>, batch: nat, batchSize: nat, dimension: nat, provider: Provider, i: nat)
    requires batchSize >= 1 && i < |texts| && i < batchSize
    ensures var cut := if batchSize <= |texts| then batchSize else |texts|;
      GoodBatch(texts, batch, batchSize, dimension, provider, i)
      <==> CheckAnswer(provider(batch, texts[..cut]), cut, dimension).Ok?
  {
    FirstBatch(batchSize, i);
    var cut := if batchSize <= |texts| then batchSize else |texts|;
    assert texts[0..cut] == texts[..cut];
    var answer := provider(batch, texts[..cut]);
    if answer.Vectors? {
      assert (forall v | v in answer.vectors :: |v| == dimension)
        <==> (forall j | 0 <= j < |answer.vectors| :: |answer.vectors[j]| == dimension);
    }
  }

  /** The call succeeds exactly when every batch is answered properly. */
  lemma {:induction false} EmbedsIff(texts: seq<Text>, batch: nat, batchSize: nat, dimension: nat, provider: Provider)
    requires batchSize >= 1
    ensures EmbedFrom(texts, batch, batchSize, dimension, provider).Ok?
       <==> forall i: nat | i < |texts| :: GoodBatch(texts, batch, batchSize, dimension, provider, i)
    decreases |texts|
  {
    hide GoodBatch, CheckAnswer;
    if texts == [] {
    } else {
      var cut := if batchSize <= |texts| then batchSize else |texts|;
      var rest := texts[cut..];
      var next := batch + 1;
      EmbedsIff(rest, next, batchSize, dimension, provider);
      GoodFirstBatch(texts, batch, batchSize, dimension, provider, 0);
      forall i: nat | i < |texts|
        ensures if i < cut
          then GoodBatch(texts, batch, batchSize, dimension, provider, i)
               <==> CheckAnswer(provider(batch, texts[..cut]), cut, dimension).Ok?
          else GoodBatch(texts, batch, batchSize, dimension, provider, i)
               <==> GoodBatch(rest, next, batchSize, dimension, provider, i - cut)
      {
        if i < cut {
          GoodFirstBatch(texts, batch, batchSize, dimension, provider, i);
        } else {
          GoodBatchLater(texts, batch, batchSize, dimension, provider, i);
        }
      }
      if forall i: nat | i < |texts| :: GoodBatch(texts, batch, batchSize, dimension, provider, i) {
        forall i: nat | i < |rest| ensures GoodBatch(rest, next, batchSize, dimension, provider, i) {
          assert GoodBatch(texts, batch, batchSize, dimension, provider, i + cut);
        }
      }
    }
  }

  function EmbedEach(texts: seq<Text>, embed: Text -> Vector): (vs: seq<Vector>)
    ensures |vs| == |texts|
  {
    seq(|texts|, i requires 0 <= i < |texts| => embed(texts[i]))
  }

  /** Batching is invisible to a provider that embeds each text on its own: the result is the
      map of that function over the texts, whatever the batch size. */
  lemma {:induction false} BatchingInvisible(texts: seq<Text>, batch: nat, batchSize: nat, dimension: nat,
                                             provider: Provider, embed: Text -> Vector)
    requires batchSize >= 1
    requires forall b, ts :: provider(b, ts) == Vectors(EmbedEach(ts, embed))
    requires forall t :: |embed(t)| == dimension
    ensures EmbedFrom(texts, batch, batchSize, dimension, provider)
         == Ok(EmbedEach(texts, embed))
    decreases |texts|
  {
    if texts == [] {
    } else {
      var cut := if batchSize <= |texts| then batchSize else |texts|;
      var head, rest := texts[..cut], texts[cut..];
      BatchingInvisible(rest, batch + 1, batchSize, dimension, provider, embed);
      var hs := EmbedEach(head, embed);
      assert provider(batch, head) == Vectors(hs);
      assert CheckAnswer(provider(batch, head), cut, dimension) == Ok(hs);
      assert hs + EmbedEach(rest, embed) == EmbedEach(texts, embed);
    }
  }
}
