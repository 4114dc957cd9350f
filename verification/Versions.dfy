/** Document versions: the next number is read first and inserted later, and a uniqueness
    constraint on (document, number) rejects a number that was taken meanwhile. */
module Versions {
  import opened Outcomes

  type DocumentId = string

  datatype Version = Version(document: DocumentId, number: nat, hash: string)

  /** The version numbers of a document, in the order of insertion. */
  function NumbersOf(table: seq<Version>, document: DocumentId): seq<nat> {
    if table == [] then []
    else
      var rest := NumbersOf(table[..|table| - 1], document);
      if table[|table| - 1].document == document then rest + [table[|table| - 1].number] else rest
  }

  /** The highest number of a document, 0 when it has none. */
  function Latest(table: seq<Version>, document: DocumentId): (n: nat)
    ensures forall v | v in table && v.document == document :: v.number <= n
  {
    if table == [] then 0
    else
      var last := table[|table| - 1];
      var rest := Latest(table[..|table| - 1], document);
      assert table == table[..|table| - 1] + [last];
      if last.document == document && last.number > rest then last.number else rest
  }

  /** The read step of createVersion. */
  function NextNumber(table: seq<Version>, document: DocumentId): nat {
    Latest(table, document) + 1
  }

  predicate NumberTaken(table: seq<Version>, document: DocumentId, number: nat) {
    exists i | 0 <= i < |table| :: table[i].document == document && table[i].number == number
  }

  /** The insert step of createVersion: no change when the number is taken. */
  function Insert(table: seq<Version>, v: Version): seq<Version> {
    if NumberTaken(table, v.document, v.number) then table else table + [v]
  }

  /** Every document's numbers are 1, 2, ..., n in order. */
  ghost predicate Contiguous(table: seq<Version>) {
    forall d :: CountsUp(NumbersOf(table, d))
  }

  predicate CountsUp(s: seq<nat>) {
    forall i | 0 <= i < |s| :: s[i] == i + 1
  }

  lemma {:induction false} NumbersAreRows(table: seq<Version>, document: DocumentId, number: nat)
    ensures number in NumbersOf(table, document) <==> NumberTaken(table, document, number)
  {
    if table == [] {
    } else {
      var init, last := table[..|table| - 1], table[|table| - 1];
      NumbersAreRows(init, document, number);
      if NumberTaken(init, document, number) {
        var i :| 0 <= i < |init| && init[i].document == document && init[i].number == number;
        assert table[i] == init[i];
      }
      if NumberTaken(table, document, number) && last.document == document && last.number == number {
        assert number in NumbersOf(table, document);
      } else if NumberTaken(table, document, number) {
        var i :| 0 <= i < |table| && table[i].document == document && table[i].number == number;
        assert init[i] == table[i];
      }
    }
  }

  lemma {:induction false} LatestIsCount(table: seq<Version>, document: DocumentId)
    requires CountsUp(NumbersOf(table, document))
    ensures Latest(table, document) == |NumbersOf(table, document)|
  {
    if table == [] {
    } else {
      var init, last := table[..|table| - 1], table[|table| - 1];
      var before, after := NumbersOf(init, document), NumbersOf(table, document);
      assert CountsUp(before) by {
        forall i | 0 <= i < |before| ensures before[i] == i + 1 {
          assert after[i] == before[i];
        }
      }
      LatestIsCount(init, document);
      if last.document == document {
        assert after[|before|] == last.number;
      }
    }
  }

  /** A number not beyond the next one is taken exactly when it is below it. */
  lemma TakenBelowNext(table: seq<Version>, document: DocumentId, number: nat)
    requires CountsUp(NumbersOf(table, document)) && 1 <= number <= NextNumber(table, document)
    ensures NumberTaken(table, document, number) <==> number < NextNumber(table, document)
  {
    var numbers := NumbersOf(table, document);
    LatestIsCount(table, document);
    NumbersAreRows(table, document, number);
    if number <= |numbers| {
      assert numbers[number - 1] == number;
    }
  }

  lemma NumbersAfter(table: seq<Version>, v: Version, document: DocumentId)
    ensures NumbersOf(table + [v], document)
         == NumbersOf(table, document) + if v.document == document then [v.number] else []
  {
    var after := table + [v];
    assert after[..|after| - 1] == table;
  }

  /** A number read earlier is never more than one past the highest, and inserting it keeps every
      document's numbers 1..n, whatever was inserted in between. */
  lemma InsertKeepsContiguous(table: seq<Version>, v: Version)
    requires Contiguous(table) && 1 <= v.number <= NextNumber(table, v.document)
    ensures Contiguous(Insert(table, v))
    ensures forall d :: NumbersOf(table, d) <= NumbersOf(Insert(table, v), d)
  {
    assert CountsUp(NumbersOf(table, v.document));
    TakenBelowNext(table, v.document, v.number);
    if !NumberTaken(table, v.document, v.number) {
      LatestIsCount(table, v.document);
      forall d ensures CountsUp(NumbersOf(table + [v], d)) && NumbersOf(table, d) <= NumbersOf(table + [v], d) {
        NumbersAfter(table, v, d);
        assert CountsUp(NumbersOf(table, d));
      }
    }
  }

  /** The next number only grows as versions are inserted. */
  lemma NextNumberGrows(table: seq<Version>, v: Version, document: DocumentId)
    ensures NextNumber(table, document) <= NextNumber(Insert(table, v), document)
  {
    var after := table + [v];
    assert after[..|after| - 1] == table;
  }

  /** The next number is one above the highest, or 1. */
  lemma {:induction false} NextIsAboveAll(table: seq<Version>, document: DocumentId)
    ensures forall v | v in table && v.document == document :: v.number < NextNumber(table, document)
    ensures NextNumber(table, document) == 1
            || exists v :: v in table && v.document == document && v.number + 1 == NextNumber(table, document)
  {
    if table == [] {
    } else {
      var init, last := table[..|table| - 1], table[|table| - 1];
      NextIsAboveAll(init, document);
      assert table == init + [last];
      if NextNumber(table, document) != NextNumber(init, document) {
        assert last in table;
      }
    }
  }

  /** The table has one row more, at its end: this document's, with this hash, under a number above all the
      document had. */
  ghost predicate AddsOne(before: seq<Version>, after: seq<Version>, document: DocumentId, hash: string) {
    && |after| == |before| + 1 && after[..|before|] == before
    && var added := after[|before|];
    && added.document == document && added.hash == hash
    && forall v | v in before && v.document == document :: v.number < added.number
  }

  /** createVersion with nobody in between adds exactly one row, numbered one more than the document's
      count of versions while they count up. */
  lemma CreateVersionAdds(table: seq<Version>, document: DocumentId, hash: string)
    ensures var n := NextNumber(table, document);
      && AddsOne(table, Insert(table, Version(document, n, hash)), document, hash)
      && (CountsUp(NumbersOf(table, document)) ==> n == |NumbersOf(table, document)| + 1)
  {
    NextIsAboveAll(table, document);
    var n := NextNumber(table, document);
    assert forall i | 0 <= i < |table| :: table[i] in table;
    assert (table + [Version(document, n, hash)])[..|table|] == table;
    if CountsUp(NumbersOf(table, document)) {
      LatestIsCount(table, document);
    }
  }
}
