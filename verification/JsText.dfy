/** JavaScript text: sequences of UTF-16 code units, with the whitespace class shared by
    String.prototype.trim and the regular-expression escape \s. */
module JsText {

  newtype CodeUnit = u: int | 0 <= u < 0x1_0000
  type Text = seq<CodeUnit>

  const TAB: CodeUnit := 9
  const LF: CodeUnit := 10
  const CR: CodeUnit := 13
  const SP: CodeUnit := 32
  const NBSP: CodeUnit := 0xA0

  predicate IsSpace(c: CodeUnit) {
    || 9 <= c <= 13 || c == SP || c == NBSP || c == 0x1680 || 0x2000 <= c <= 0x200A
    || c == 0x2028 || c == 0x2029 || c == 0x202F || c == 0x205F || c == 0x3000 || c == 0xFEFF
  }

  function TrimStart(s: Text): Text {
    if s != [] && IsSpace(s[0]) then TrimStart(s[1..]) else s
  }

  function TrimEnd(s: Text): Text {
    if s != [] && IsSpace(s[|s| - 1]) then TrimEnd(s[..|s| - 1]) else s
  }

  function Trim(s: Text): Text {
    TrimEnd(TrimStart(s))
  }

  /** No whitespace at either end. */
  predicate Trimmed(s: Text) {
    s != [] ==> !IsSpace(s[0]) && !IsSpace(s[|s| - 1])
  }

  /** Trimming cuts a window whose ends are not whitespace, and whitespace is all it cuts. */
  lemma {:induction false} TrimWindow(s: Text) returns (i: nat, j: nat)
    ensures i <= j <= |s| && Trim(s) == s[i..j] && Trimmed(s[i..j])
    ensures forall k | 0 <= k < i || j <= k < |s| :: IsSpace(s[k])
  {
    i := TrimStartDrops(s);
    var m := TrimEndTakes(TrimStart(s));
    j := i + m;
    assert s[i..][..m] == s[i..j];
    forall k | j <= k < |s| ensures IsSpace(s[k]) {
      assert s[k] == s[i..][k - i];
    }
  }

  lemma {:induction false} TrimStartDrops(s: Text) returns (i: nat)
    ensures i <= |s| && TrimStart(s) == s[i..]
    ensures i < |s| ==> !IsSpace(s[i])
    ensures forall k | 0 <= k < i :: IsSpace(s[k])
  {
    if s != [] && IsSpace(s[0]) {
      var m := TrimStartDrops(s[1..]);
      i := m + 1;
      assert s[1..][m..] == s[i..];
      forall k | 0 < k < i ensures IsSpace(s[k]) {
        assert s[k] == s[1..][k - 1];
      }
    } else {
      i := 0;
    }
  }

  lemma {:induction false} TrimEndTakes(s: Text) returns (j: nat)
    ensures j <= |s| && TrimEnd(s) == s[..j]
    ensures j > 0 ==> !IsSpace(s[j - 1])
    ensures forall k | j <= k < |s| :: IsSpace(s[k])
  {
    if s != [] && IsSpace(s[|s| - 1]) {
      j := TrimEndTakes(s[..|s| - 1]);
      assert s[..|s| - 1][..j] == s[..j];
      forall k | j <= k < |s| - 1 ensures IsSpace(s[k]) {
        assert s[k] == s[..|s| - 1][k];
      }
    } else {
      j := |s|;
    }
  }

  /** Text already free of outer whitespace is left alone. */
  lemma TrimFixpoint(s: Text)
    requires Trimmed(s)
    ensures Trim(s) == s
  {
  }

  // ---- Words ----

  /** A reader part of the way through a text: the finished words and the word being read. */
  datatype Reader = Reader(done: seq<Text>, word: Text)

  function Flush(r: Reader): Reader {
    if r.word == [] then r else Reader(r.done + [r.word], [])
  }

  function Put(r: Reader, c: CodeUnit): Reader {
    if IsSpace(c) then Flush(r) else Reader(r.done, r.word + [c])
  }

  function Feed(r: Reader, s: Text): Reader
    decreases |s|
  {
    if s == [] then r else Feed(Put(r, s[0]), s[1..])
  }

  /** The maximal runs of non-whitespace, in order: split(/\s+/) with empty strings removed. */
  function Words(s: Text): seq<Text> {
    Flush(Feed(Reader([], []), s)).done
  }

  /** A word is non-empty and holds no whitespace. */
  predicate IsWord(w: Text) {
    w != [] && forall c | c in w :: !IsSpace(c)
  }

  lemma {:induction false} FeedConcat(r: Reader, a: Text, b: Text)
    ensures Feed(r, a + b) == Feed(Feed(r, a), b)
    decreases |a|
  {
    if a == [] {
      assert a + b == b;
    } else {
      assert (a + b)[1..] == a[1..] + b;
      FeedConcat(Put(r, a[0]), a[1..], b);
    }
  }

  lemma FeedCons(r: Reader, c: CodeUnit, rest: Text)
    ensures Feed(r, [c] + rest) == Feed(Put(r, c), rest)
  {
    assert ([c] + rest)[1..] == rest;
  }

  /** A whitespace character ends the word of the text before it. */
  lemma FeedBreak(r: Reader, before: Text, c: CodeUnit, rest: Text)
    requires IsSpace(c)
    ensures Feed(r, before + [c] + rest) == Feed(Flush(Feed(r, before)), rest)
  {
    assert before + [c] + rest == before + ([c] + rest);
    FeedConcat(r, before, [c] + rest);
    FeedCons(Feed(r, before), c, rest);
  }

  /** Reading whitespace only ends the word being read. */
  lemma {:induction false} FeedSpaces(r: Reader, s: Text)
    requires forall c | c in s :: IsSpace(c)
    ensures Feed(r, s) == if s == [] then r else Flush(r)
    decreases |s|
  {
    if s == [] {
    } else {
      FeedSpaces(Put(r, s[0]), s[1..]);
    }
  }

  /** Reading characters none of which is whitespace lengthens the word being read. */
  lemma {:induction false} FeedLetters(r: Reader, s: Text)
    requires forall c | c in s :: !IsSpace(c)
    ensures Feed(r, s) == Reader(r.done, r.word + s)
    decreases |s|
  {
    if s != [] {
      FeedLetters(Put(r, s[0]), s[1..]);
      assert r.word + s == r.word + [s[0]] + s[1..];
    } else {
      assert r.word + s == r.word;
    }
  }

  /** Outer whitespace does not change what a reader between words has seen by the next break. */
  lemma {:induction false} TrimKeepsWords(r: Reader, s: Text)
    requires r.word == []
    ensures Flush(Feed(r, Trim(s))) == Flush(Feed(r, s))
  {
    var i, j := TrimWindow(s);
    assert s == s[..i] + s[i..j] + s[j..];
    FeedConcat(r, s[..i] + s[i..j], s[j..]);
    FeedConcat(r, s[..i], s[i..j]);
    FeedSpaces(r, s[..i]);
    FeedSpaces(Feed(r, s[i..j]), s[j..]);
  }

  /** Every element of Words is a word. */
  lemma {:induction false} WordsAreWords(s: Text)
    ensures forall w | w in Words(s) :: IsWord(w)
  {
    FeedGivesWords(Reader([], []), s);
  }

  lemma {:induction false} FeedGivesWords(r: Reader, s: Text)
    requires forall w | w in r.done :: IsWord(w)
    requires r.word == [] || IsWord(r.word)
    ensures forall w | w in Feed(r, s).done :: IsWord(w)
    ensures Feed(r, s).word == [] || IsWord(Feed(r, s).word)
    decreases |s|
  {
    if s == [] {
    } else {
      FeedGivesWords(Put(r, s[0]), s[1..]);
    }
  }

  /** A reader that has seen part of a word keeps it. */
  lemma {:induction false} FeedKeepsSeen(r: Reader, s: Text)
    requires r.done != [] || r.word != []
    ensures Flush(Feed(r, s)).done != []
    decreases |s|
  {
    if s == [] {
    } else {
      FeedKeepsSeen(Put(r, s[0]), s[1..]);
    }
  }

  /** A text has no words exactly when trimming leaves nothing of it. */
  lemma NoWordsIff(s: Text)
    ensures Words(s) == [] <==> Trim(s) == []
  {
    var none := Reader([], []);
    TrimKeepsWords(none, s);
    var i, j := TrimWindow(s);
    if Trim(s) != [] {
      FeedKeepsSeen(Put(none, Trim(s)[0]), Trim(s)[1..]);
    }
  }

  /** words.join(' ') */
  function JoinWords(words: seq<Text>): Text {
    if words == [] then []
    else if |words| == 1 then words[0]
    else words[0] + [SP] + JoinWords(words[1..])
  }

  function TotalLength(words: seq<Text>): nat {
    if words == [] then 0 else |words[0]| + TotalLength(words[1..])
  }

  /** Between two words of a join there is one space character and nothing else. */
  lemma {:induction false} JoinedBySpaces(words: seq<Text>)
    requires words != [] && forall w | w in words :: IsWord(w)
    ensures forall c | c in JoinWords(words) :: IsSpace(c) ==> c == 32
    ensures |JoinWords(words)| == TotalLength(words) + |words| - 1
  {
    assert IsWord(words[0]);
    if |words| == 1 {
      assert TotalLength(words[1..]) == 0;
    } else {
      JoinedBySpaces(words[1..]);
    }
  }

  /** Splitting a join of words gives back exactly those words. */
  lemma {:induction false} WordsOfJoin(words: seq<Text>)
    requires forall w | w in words :: IsWord(w)
    ensures Words(JoinWords(words)) == words
  {
    FeedJoin(Reader([], []), words);
    assert [] + words == words;
  }

  lemma {:induction false} FeedJoin(r: Reader, words: seq<Text>)
    requires r.word == []
    requires forall w | w in words :: IsWord(w)
    ensures Flush(Feed(r, JoinWords(words))).done == r.done + words
    decreases |words|
  {
    if |words| == 1 {
      assert IsWord(words[0]);
      FeedLetters(r, words[0]);
      assert [] + words[0] == words[0];
    } else if |words| > 1 {
      assert IsWord(words[0]);
      var rest := JoinWords(words[1..]);
      assert JoinWords(words) == words[0] + ([SP] + rest);
      FeedConcat(r, words[0], [SP] + rest);
      FeedLetters(r, words[0]);
      assert r.word + words[0] == words[0];
      assert ([SP] + rest)[1..] == rest;
      FeedJoin(Reader(r.done + [words[0]], []), words[1..]);
      assert r.done + [words[0]] + words[1..] == r.done + words;
    }
  }
}
