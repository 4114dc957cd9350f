/** Pagination: parameter parsing, offset metadata, and cursors in base64url (RFC 4648 section 5). */
module Pagination {
  import opened Outcomes

  const DEFAULT_LIMIT := 20
  const MAX_LIMIT := 100

  // ---- Parameters and offset metadata ----

  /** A query: what parseInt makes of `limit` and `page` (None for NaN), and the cursor ("" if absent). */
  datatype Query = Query(limit: Option<int>, page: Option<int>, cursor: string)

  /** Exactly one of page and cursor is set. */
  datatype Params = ByPage(limit: nat, page: nat) | ByCursor(limit: nat, cursor: string)

  function ParseLimit(limit: Option<int>): (r: nat)
    ensures 1 <= r <= MAX_LIMIT
    ensures limit.Some? && 1 <= limit.value <= MAX_LIMIT ==> r == limit.value
  {
    if limit.None? || limit.value < 1 then DEFAULT_LIMIT
    else if limit.value > MAX_LIMIT then MAX_LIMIT
    else limit.value
  }

  /** parsePaginationParams */
  function ParsePaginationParams(q: Query): (p: Params)
    ensures 1 <= p.limit <= MAX_LIMIT && (p.ByPage? ==> p.page >= 1)
    ensures q.limit.Some? && 1 <= q.limit.value ==>
              p.limit == if q.limit.value <= MAX_LIMIT then q.limit.value else MAX_LIMIT
    ensures q.limit.None? || q.limit.value < 1 ==> p.limit == DEFAULT_LIMIT
    ensures q.cursor != "" <==> p == ByCursor(p.limit, q.cursor)
    ensures q.cursor == "" <==> p == ByPage(p.limit, if q.page.Some? && q.page.value >= 1 then q.page.value else 1)
  {
    var limit := ParseLimit(q.limit);
    if q.cursor != "" then ByCursor(limit, q.cursor)
    else ByPage(limit, if q.page.None? || q.page.value < 1 then 1 else q.page.value)
  }

  datatype OffsetMeta = OffsetMeta(total: nat, page: int, limit: nat, totalPages: nat,
                                   hasNextPage: bool, hasPrevPage: bool)

  /** Math.ceil(total / limit) */
  function PageCount(total: nat, limit: nat): nat
    requires limit > 0
  {
    (total + limit - 1) / limit
  }

  /** buildOffsetPagination */
  function BuildOffsetPagination(total: nat, page: int, limit: nat): (meta: OffsetMeta)
    requires limit > 0
    ensures meta.total == total && meta.page == page && meta.limit == limit
  {
    var totalPages := PageCount(total, limit);
    OffsetMeta(total, page, limit, totalPages, page < totalPages, page > 1)
  }

  /** findMany with skip and take. */
  function Slice<T>(rows: seq<T>, skip: nat, take: nat): seq<T> {
    if skip >= |rows| then []
    else if skip + take >= |rows| then rows[skip..]
    else rows[skip..skip + take]
  }

  function PageOf<T>(rows: seq<T>, page: nat, limit: nat): seq<T>
    requires page >= 1
  {
    Slice(rows, Skipped(page, limit), limit)
  }

  function Skipped(page: nat, limit: nat): nat
    requires page >= 1
  {
    (page - 1) * limit
  }

  function FirstPages<T>(rows: seq<T>, pages: nat, limit: nat): seq<T> {
    if pages == 0 then [] else FirstPages(rows, pages - 1, limit) + PageOf(rows, pages, limit)
  }

  lemma SlicesJoin<T>(rows: seq<T>, a: nat, b: nat)
    ensures Slice(rows, 0, a) + Slice(rows, a, b) == Slice(rows, 0, a + b)
  {
  }

  lemma {:induction false} FirstPagesPrefix<T>(rows: seq<T>, pages: nat, limit: nat)
    ensures FirstPages(rows, pages, limit) == Slice(rows, 0, pages * limit)
  {
    if pages == 0 {
    } else {
      hide Slice;
      FirstPagesPrefix(rows, pages - 1, limit);
      assert pages * limit == (pages - 1) * limit + limit;
      SlicesJoin(rows, (pages - 1) * limit, limit);
    }
  }

  lemma CeilingCovers(total: nat, limit: nat, pages: nat)
    requires limit > 0
    ensures pages * limit >= total <==> pages >= PageCount(total, limit)
  {
    var q := PageCount(total, limit);
    assert q * limit <= total + limit - 1 < q * limit + limit;
    if pages >= q {
      assert pages * limit >= q * limit;
    } else {
      assert pages * limit <= (q - 1) * limit == q * limit - limit;
    }
  }

  /** Page by page, the offset pages tile the list: the pages up to any page are a prefix of it, and
      `hasNextPage` is false exactly when that prefix is everything. */
  lemma OffsetPagesTile<T>(rows: seq<T>, page: nat, limit: nat)
    requires page >= 1 && limit > 0
    ensures FirstPages(rows, page, limit) <= rows
    ensures var meta := BuildOffsetPagination(|rows|, page, limit);
      && meta.total == |rows| && meta.page == page && meta.limit == limit
      && (!meta.hasNextPage <==> FirstPages(rows, page, limit) == rows)
      && (PageOf(rows, page, limit) != [] <==> page <= meta.totalPages)
      && (page <= meta.totalPages ==> (meta.hasPrevPage <==> FirstPages(rows, page - 1, limit) != []))
  {
    hide PageCount;
    FirstPagesPrefix(rows, page, limit);
    FirstPagesPrefix(rows, page - 1, limit);
    assert page > 1 ==> (page - 1) * limit >= 1;
    CeilingCovers(|rows|, limit, page);
    CeilingCovers(|rows|, limit, page - 1);
  }

  // ---- base64url ----

  type Byte = b: nat | b < 256
  type Sextet = s: nat | s < 64

  /** The alphabet of RFC 4648 section 5. */
  function Symbol(s: Sextet): char {
    if s < 26 then 'A' + s as char
    else if s < 52 then 'a' + (s - 26) as char
    else if s < 62 then '0' + (s - 52) as char
    else if s == 62 then '-' else '_'
  }

  /** The value of a symbol; the decoder also takes + and / for the last two. */
  function Value(c: char): Option<Sextet> {
    if 'A' <= c <= 'Z' then Some((c - 'A') as Sextet)
    else if 'a' <= c <= 'z' then Some((c - 'a') as Sextet + 26)
    else if '0' <= c <= '9' then Some((c - '0') as Sextet + 52)
    else if c == '-' || c == '+' then Some(62)
    else if c == '_' || c == '/' then Some(63)
    else None
  }

  // The four groups of six bits in three bytes, and back.
  function S0(b0: Byte): Sextet { b0 / 4 }
  function S1(b0: Byte, b1: Byte): Sextet { b0 % 4 * 16 + b1 / 16 }
  function S2(b1: Byte, b2: Byte): Sextet { b1 % 16 * 4 + b2 / 64 }
  function S3(b2: Byte): Sextet { b2 % 64 }
  function B0(s0: Sextet, s1: Sextet): Byte { s0 * 4 + s1 / 16 }
  function B1(s1: Sextet, s2: Sextet): Byte { s1 % 16 * 16 + s2 / 4 }
  function B2(s2: Sextet, s3: Sextet): Byte { s2 % 4 * 64 + s3 }

  lemma Regroup(b0: Byte, b1: Byte, b2: Byte)
    ensures B0(S0(b0), S1(b0, b1)) == b0 && B1(S1(b0, b1), S2(b1, b2)) == b1 && B2(S2(b1, b2), S3(b2)) == b2
  {
  }

  /** Three bytes become four sextets; a rest of one or two bytes becomes two or three. */
  function Split(bytes: seq<Byte>): seq<Sextet> {
    if bytes == [] then []
    else if |bytes| == 1 then [S0(bytes[0]), S1(bytes[0], 0)]
    else if |bytes| == 2 then [S0(bytes[0]), S1(bytes[0], bytes[1]), S2(bytes[1], 0)]
    else [S0(bytes[0]), S1(bytes[0], bytes[1]), S2(bytes[1], bytes[2]), S3(bytes[2])] + Split(bytes[3..])
  }

  function Join(x: seq<Sextet>): seq<Byte> {
    if |x| < 2 then []
    else if |x| == 2 then [B0(x[0], x[1])]
    else if |x| == 3 then [B0(x[0], x[1]), B1(x[1], x[2])]
    else [B0(x[0], x[1]), B1(x[1], x[2]), B2(x[2], x[3])] + Join(x[4..])
  }

  function Symbols(x: seq<Sextet>): string {
    if x == [] then "" else [Symbol(x[0])] + Symbols(x[1..])
  }

  /** The values of the symbols; other characters are skipped. */
  function Values(s: string): seq<Sextet> {
    if s == "" then []
    else if Value(s[0]).None? then Values(s[1..])
    else [Value(s[0]).value] + Values(s[1..])
  }

  /** Unpadded, as toString('base64url') is. */
  function Encode64(bytes: seq<Byte>): string {
    Symbols(Split(bytes))
  }

  function Decode64(s: string): seq<Byte> {
    Join(Values(s))
  }

  lemma ValueOfSymbol(s: Sextet)
    ensures Value(Symbol(s)) == Some(s)
  {
  }

  lemma ValuesCons(x: Sextet, rest: string)
    ensures Values([Symbol(x)] + rest) == [x] + Values(rest)
  {
    hide Value, Symbol;
    ValueOfSymbol(x);
    assert ([Symbol(x)] + rest)[1..] == rest;
  }

  lemma {:induction false} ValuesOfSymbols(x: seq<Sextet>)
    ensures Values(Symbols(x)) == x
  {
    if x == [] {
    } else {
      hide Value, Values, Symbol;
      ValuesCons(x[0], Symbols(x[1..]));
      ValuesOfSymbols(x[1..]);
      assert x == [x[0]] + x[1..];
    }
  }

  lemma {:induction false} JoinSplit(bytes: seq<Byte>)
    ensures Join(Split(bytes)) == bytes
  {
    hide S0, S1, S2, S3, B0, B1, B2;
    if |bytes| == 1 {
      Regroup(bytes[0], 0, 0);
    } else if |bytes| == 2 {
      Regroup(bytes[0], bytes[1], 0);
    } else if |bytes| >= 3 {
      Regroup(bytes[0], bytes[1], bytes[2]);
      JoinSplit(bytes[3..]);
      assert Split(bytes)[4..] == Split(bytes[3..]);
      assert bytes == [bytes[0], bytes[1], bytes[2]] + bytes[3..];
    }
  }

  /** Decoding an encoding gives the bytes back. */
  lemma Base64RoundTrip(bytes: seq<Byte>)
    ensures Decode64(Encode64(bytes)) == bytes
  {
    hide Split, Join, Symbols, Values;
    JoinSplit(bytes);
    ValuesOfSymbols(Split(bytes));
  }

  const UPPER := "ABCDEFGHIJKLMNOPQRSTUVWXYZ"
  const LOWER := "abcdefghijklmnopqrstuvwxyz"
  const REST := "0123456789-_"

  /** The alphabet in order. */
  function Letter(n: Sextet): char {
    if n < 26 then UPPER[n] else if n < 52 then LOWER[n - 26] else REST[n - 52]
  }

  lemma SymbolIsLetter(n: Sextet)
    ensures Symbol(n) == Letter(n)
  {
    assert forall i | 0 <= i < 26 :: UPPER[i] == 'A' + i as char && LOWER[i] == 'a' + i as char;
    assert forall i | 0 <= i < 10 :: REST[i] == '0' + i as char;
  }

  /** Three bytes read as one number. */
  function Number(b0: nat, b1: nat, b2: nat): nat {
    (b0 * 256 + b1) * 256 + b2
  }

  /** Digit 0, 1, 2 or 3 of such a number in base 64, the highest first. */
  function Digit(n: nat, i: nat): Sextet
    requires n < 0x100_0000 && i < 4
  {
    if i == 0 then n / 262144 else if i == 1 then n / 4096 % 64 else if i == 2 then n / 64 % 64 else n % 64
  }

  lemma InRange(b0: Byte, b1: Byte, b2: Byte)
    ensures Number(b0, b1, b2) < 0x100_0000
  {
  }

  lemma FourDigits(s0: Sextet, s1: Sextet, s2: Sextet, s3: Sextet)
    ensures var n: nat := ((s0 as nat * 64 + s1) * 64 + s2) * 64 + s3;
      n / 262144 == s0 && n / 4096 == s0 * 64 + s1 && n / 64 == (s0 * 64 + s1) * 64 + s2 && n % 64 == s3
  {
  }

  lemma BytesAreSextets(b0: Byte, b1: Byte, b2: Byte)
    ensures var s0: nat, s1: nat, s2: nat, s3: nat := S0(b0), S1(b0, b1), S2(b1, b2), S3(b2);
      Number(b0, b1, b2) == ((s0 * 64 + s1) * 64 + s2) * 64 + s3
  {
  }

  lemma SixBits(b0: Byte, b1: Byte, b2: Byte)
    requires Number(b0, b1, b2) < 0x100_0000
    ensures var n := Number(b0, b1, b2);
      S0(b0) == Digit(n, 0) && S1(b0, b1) == Digit(n, 1) && S2(b1, b2) == Digit(n, 2) && S3(b2) == Digit(n, 3)
  {
    hide S0, S1, S2, S3, Number;
    BytesAreSextets(b0, b1, b2);
    FourDigits(S0(b0), S1(b0, b1), S2(b1, b2), S3(b2));
  }

  lemma SymbolsConcat(a: seq<Sextet>, b: seq<Sextet>)
    ensures Symbols(a + b) == Symbols(a) + Symbols(b)
    decreases |a|
  {
    if a == [] {
      assert a + b == b;
    } else {
      assert (a + b)[1..] == a[1..] + b;
      SymbolsConcat(a[1..], b);
    }
  }

  lemma SymbolsOfFour(a: Sextet, b: Sextet, c: Sextet, d: Sextet)
    ensures Symbols([a, b]) == [Letter(a), Letter(b)] && Symbols([a, b, c]) == [Letter(a), Letter(b), Letter(c)]
    ensures Symbols([a, b, c, d]) == [Letter(a), Letter(b), Letter(c), Letter(d)]
  {
    hide Symbol, Letter;
    SymbolIsLetter(a);
    SymbolIsLetter(b);
    SymbolIsLetter(c);
    SymbolIsLetter(d);
    assert Symbols([d]) == [Symbol(d)] && Symbols([c]) == [Symbol(c)] && Symbols([b]) == [Symbol(b)];
    assert [b, c, d][1..] == [c, d] && [c, d][1..] == [d] && [b, c][1..] == [c];
    assert [a, b, c, d][1..] == [b, c, d] && [a, b, c][1..] == [b, c] && [a, b][1..] == [b];
    assert Symbols([c, d]) == [Symbol(c), Symbol(d)] && Symbols([b, c]) == [Symbol(b), Symbol(c)];
    assert Symbols([b, c, d]) == [Symbol(b), Symbol(c), Symbol(d)];
  }

  /** Each three bytes, read as one number, give its four digits in base 64; of one or two last bytes, filled
      up with zeros, two or three digits are kept. */
  lemma EncodesSixBits(bytes: seq<Byte>)
    ensures forall b0: Byte, b1: Byte, b2: Byte :: Number(b0, b1, b2) < 0x100_0000
    ensures |bytes| == 1 ==> var n := Number(bytes[0], 0, 0);
                             Encode64(bytes) == [Letter(Digit(n, 0)), Letter(Digit(n, 1))]
    ensures |bytes| == 2 ==> var n := Number(bytes[0], bytes[1], 0);
                             Encode64(bytes) == [Letter(Digit(n, 0)), Letter(Digit(n, 1)), Letter(Digit(n, 2))]
    ensures |bytes| >= 3 ==>
              var n := Number(bytes[0], bytes[1], bytes[2]);
              Encode64(bytes) == [Letter(Digit(n, 0)), Letter(Digit(n, 1)), Letter(Digit(n, 2)), Letter(Digit(n, 3))]
                                 + Encode64(bytes[3..])
  {
    hide Symbol, Letter, S0, S1, S2, S3, Number, Digit, Symbols;
    forall b0: Byte, b1: Byte, b2: Byte {
      InRange(b0, b1, b2);
    }
    if bytes != [] {
      var b0: Byte, b1: Byte, b2: Byte :=
        bytes[0], if |bytes| >= 2 then bytes[1] else 0, if |bytes| >= 3 then bytes[2] else 0;
      SixBits(b0, b1, b2);
      SymbolsOfFour(S0(b0), S1(b0, b1), S2(b1, b2), S3(b2));
      if |bytes| >= 3 {
        SymbolsConcat([S0(b0), S1(b0, b1), S2(b1, b2), S3(b2)], Split(bytes[3..]));
      }
    }
  }

  // ---- UTF-8 ----

  /** The bytes of a character. */
  function Utf8Char(c: char): (b: seq<Byte>)
    ensures 1 <= |b| <= 4
  {
    var n := c as nat;
    if n < 0x80 then [n]
    else if n < 0x800 then [0xC0 + n / 64, 0x80 + n % 64]
    else if n < 0x1_0000 then [0xE0 + n / 4096, 0x80 + n / 64 % 64, 0x80 + n % 64]
    else [0xF0 + n / 262144, 0x80 + n / 4096 % 64, 0x80 + n / 64 % 64, 0x80 + n % 64]
  }

  function Utf8(s: string): seq<Byte> {
    if s == "" then [] else Utf8Char(s[0]) + Utf8(s[1..])
  }

  predicate Trails(b: seq<Byte>, from: nat, count: nat) {
    |b| >= from + count && forall i | from <= i < from + count :: 0x80 <= b[i] < 0xC0
  }

  const REPLACEMENT: char := '\U{FFFD}'

  /** The number in the low six bits of each of `count` trailing bytes, after that in the lead byte. */
  function Gather(b: seq<Byte>, lead: nat, count: nat): nat
    requires Trails(b, 1, count)
  {
    if count == 0 then lead
    else
      var low: nat := b[count] - 0x80;
      Gather(b, lead, count - 1) * 64 + low
  }

  /** The first character of some bytes and how many of them it takes. A byte that starts no
      well-formed character is replaced. */
  function DecodeChar(b: seq<Byte>): (r: (char, nat))
    requires b != []
    ensures 1 <= r.1 <= |b|
  {
    var first: nat := b[0];
    if first < 0x80 then (first as char, 1)
    else if 0xC0 <= first < 0xE0 && Trails(b, 1, 1) && 0x80 <= Gather(b, first - 0xC0, 1) < 0x800 then
      (Gather(b, first - 0xC0, 1) as char, 2)
    else if 0xE0 <= first < 0xF0 && Trails(b, 1, 2) && IsWide(Gather(b, first - 0xE0, 2)) then
      (Gather(b, first - 0xE0, 2) as char, 3)
    else if 0xF0 <= first < 0xF8 && Trails(b, 1, 3) && 0x1_0000 <= Gather(b, first - 0xF0, 3) < 0x11_0000 then
      (Gather(b, first - 0xF0, 3) as char, 4)
    else (REPLACEMENT, 1)
  }

  predicate IsWide(n: nat) {
    0x800 <= n < 0x1_0000 && !(0xD800 <= n < 0xE000)
  }

  function DecodeUtf8(b: seq<Byte>): string
    decreases |b|
  {
    if b == [] then "" else [DecodeChar(b).0] + DecodeUtf8(b[DecodeChar(b).1..])
  }

  lemma Digits(n: nat)
    ensures n / 64 * 64 + n % 64 == n
    ensures n / 4096 * 64 + n / 64 % 64 == n / 64
    ensures n / 262144 * 64 + n / 4096 % 64 == n / 4096
  {
    assert n / 64 / 64 == n / 4096 && n / 4096 / 64 == n / 262144;
  }

  lemma Gather1(b: seq<Byte>, lead: nat)
    requires Trails(b, 1, 1)
    ensures Gather(b, lead, 1) == lead * 64 + (b[1] as nat - 0x80)
  {
  }

  lemma Gather2(b: seq<Byte>, lead: nat)
    requires Trails(b, 1, 2)
    ensures Gather(b, lead, 2) == (lead * 64 + (b[1] as nat - 0x80)) * 64 + (b[2] as nat - 0x80)
  {
    Gather1(b, lead);
  }

  lemma Gather3(b: seq<Byte>, lead: nat)
    requires Trails(b, 1, 3)
    ensures Gather(b, lead, 3)
         == ((lead * 64 + (b[1] as nat - 0x80)) * 64 + (b[2] as nat - 0x80)) * 64 + (b[3] as nat - 0x80)
  {
    Gather2(b, lead);
  }

  lemma DecodeTwo(c: char, rest: seq<Byte>)
    requires 0x80 <= c as nat < 0x800
    ensures DecodeChar(Utf8Char(c) + rest) == (c, |Utf8Char(c)|)
  {
    hide Gather;
    Digits(c as nat);
    Gather1(Utf8Char(c) + rest, c as nat / 64);
  }

  lemma DecodeThree(c: char, rest: seq<Byte>)
    requires 0x800 <= c as nat < 0x1_0000
    ensures DecodeChar(Utf8Char(c) + rest) == (c, |Utf8Char(c)|)
  {
    hide Gather;
    Digits(c as nat);
    Gather2(Utf8Char(c) + rest, c as nat / 4096);
  }

  lemma DecodeFour(c: char, rest: seq<Byte>)
    requires 0x1_0000 <= c as nat
    ensures DecodeChar(Utf8Char(c) + rest) == (c, |Utf8Char(c)|)
  {
    hide Gather;
    Digits(c as nat);
    Gather3(Utf8Char(c) + rest, c as nat / 262144);
  }

  lemma DecodeCharOf(c: char, rest: seq<Byte>)
    ensures DecodeChar(Utf8Char(c) + rest) == (c, |Utf8Char(c)|)
  {
    if c as nat < 0x80 {
    } else if c as nat < 0x800 {
      DecodeTwo(c, rest);
    } else if c as nat < 0x1_0000 {
      DecodeThree(c, rest);
    } else {
      DecodeFour(c, rest);
    }
  }

  /** Decoding the UTF-8 bytes of any text gives the text back. */
  lemma {:induction false} Utf8RoundTrip(s: string)
    ensures DecodeUtf8(Utf8(s)) == s
  {
    if s == "" {
    } else {
      hide Utf8Char, DecodeChar;
      DecodeCharOf(s[0], Utf8(s[1..]));
      Utf8RoundTrip(s[1..]);
      assert Utf8(s)[|Utf8Char(s[0])|..] == Utf8(s[1..]);
      assert s == [s[0]] + s[1..];
    }
  }

  // ---- Cursors ----

  /** encodeCursor */
  function EncodeCursor(value: string): string {
    Encode64(Utf8(value))
  }

  /** decodeCursor */
  function DecodeCursor(cursor: string): string {
    DecodeUtf8(Decode64(cursor))
  }

  /** Decoding an encoded cursor gives the value back, and only the empty value has an empty cursor. */
  lemma CursorRoundTrip(value: string)
    ensures DecodeCursor(EncodeCursor(value)) == value
    ensures EncodeCursor(value) == "" <==> value == ""
  {
    hide Encode64, Decode64;
    Base64RoundTrip(Utf8(value));
    Utf8RoundTrip(value);
    EmptyCoding();
  }

  lemma EmptyCoding()
    ensures Encode64([]) == "" && Decode64("") == []
  {
  }

  /** A page under cursor pagination; None is the null cursor. */
  datatype CursorPage<T> = CursorPage(data: seq<T>, hasNextPage: bool, nextCursor: Option<string>, limit: nat)

  /** buildCursorPagination, for items identified by `id`. */
  function BuildCursorPagination<T>(items: seq<T>, limit: nat, id: T -> string): CursorPage<T> {
    var hasNextPage := |items| > limit;
    var data := if hasNextPage then items[..limit] else items;
    CursorPage(data, hasNextPage,
               if hasNextPage && data != [] then Some(EncodeCursor(id(data[|data| - 1]))) else None, limit)
  }
}
