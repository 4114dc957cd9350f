/** The key store behind redis.service: keys with optional expiry on a millisecond clock, glob
    deletion through SCAN, and the INCR/TTL/EXPIRE commands of the rate-limit counters. */
module RedisStore {
  import opened Outcomes

  // ---- Keys ----

  const PREFIX: string := "docquery"

  function JoinKey(parts: seq<string>): string {
    if parts == [] then "" else ":" + parts[0] + JoinKey(parts[1..])
  }

  /** buildKey: the prefix and the parts, joined by colons. */
  function BuildKey(parts: seq<string>): string {
    PREFIX + JoinKey(parts)
  }

  /** A key part that can be taken neither for two parts nor for a pattern: no colon and none of the
      characters that are special in a Redis glob. */
  predicate PlainPart(s: string) {
    ':' !in s && '*' !in s && '?' !in s && '[' !in s && ']' !in s && '\\' !in s
  }

  predicate PlainParts(parts: seq<string>) {
    forall p | p in parts :: PlainPart(p)
  }

  /** The length of a text up to its first colon. */
  function FirstColon(s: string): (n: nat)
    ensures n <= |s|
  {
    if s == "" || s[0] == ':' then 0 else 1 + FirstColon(s[1..])
  }

  lemma {:induction false} FirstColonAfter(a: string, x: string)
    requires ':' !in a && (x == "" || x[0] == ':')
    ensures FirstColon(a + x) == |a|
  {
    if a == "" {
      assert a + x == x;
    } else {
      assert (a + x)[1..] == a[1..] + x;
      FirstColonAfter(a[1..], x);
    }
  }

  lemma {:induction false} FirstColonOfPrefix(s: string, t: string)
    requires s <= t && FirstColon(s) < |s|
    ensures FirstColon(t) == FirstColon(s)
  {
    if s != "" && s[0] != ':' {
      FirstColonOfPrefix(s[1..], t[1..]);
    }
  }

  /** What follows a part is the end of the key or a colon, so the part itself is determined. */
  lemma SamePart(a: string, x: string, b: string, y: string)
    requires PlainPart(a) && PlainPart(b)
    requires (x == "" || x[0] == ':') && (y == "" || y[0] == ':')
    requires a + x <= b + y && (x == "" ==> b + y == a)
    ensures a == b && x <= y
  {
    FirstColonAfter(a, x);
    FirstColonAfter(b, y);
    if x == "" {
      assert a + x == a;
    } else {
      FirstColonOfPrefix(a + x, b + y);
    }
    assert a == (a + x)[..|a|] == (b + y)[..|a|] == b;
    assert (a + x)[|a|..] == x && (b + y)[|b|..] == y;
  }

  lemma {:induction false} JoinKeyInjective(a: seq<string>, b: seq<string>)
    requires PlainParts(a) && PlainParts(b) && JoinKey(a) == JoinKey(b)
    ensures a == b
    decreases |a|
  {
    if a == [] {
    } else {
      var x, y := JoinKey(a[1..]), JoinKey(b[1..]);
      assert JoinKey(a)[1..] == a[0] + x && JoinKey(b)[1..] == b[0] + y;
      SamePart(a[0], x, b[0], y);
      SamePart(b[0], y, a[0], x);
      JoinKeyInjective(a[1..], b[1..]);
      assert a == [a[0]] + a[1..] && b == [b[0]] + b[1..];
    }
  }

  /** buildKey is injective on plain parts, whatever their number: two keys agree only when all
      their parts do. */
  lemma BuildKeyInjective(a: seq<string>, b: seq<string>)
    requires PlainParts(a) && PlainParts(b)
    ensures BuildKey(a) == BuildKey(b) <==> a == b
  {
    if BuildKey(a) == BuildKey(b) {
      assert BuildKey(a)[|PREFIX|..] == JoinKey(a) && BuildKey(b)[|PREFIX|..] == JoinKey(b);
      JoinKeyInjective(a, b);
    }
  }

  // ---- Glob patterns ----

  /** Redis glob matching, for patterns whose only special characters are * and ?. */
  predicate Glob(pattern: string, key: string)
    decreases |pattern| + |key|
  {
    if pattern == "" then key == ""
    else if pattern[0] == '*' then Glob(pattern[1..], key) || (key != "" && Glob(pattern, key[1..]))
    else key != "" && (pattern[0] == '?' || pattern[0] == key[0]) && Glob(pattern[1..], key[1..])
  }

  lemma {:induction false} StarMatchesAll(key: string)
    ensures Glob("*", key)
  {
    if key == "" {
    } else {
      StarMatchesAll(key[1..]);
    }
  }

  /** A plain text followed by a star matches exactly the keys that start with the text. */
  lemma {:induction false} GlobPrefix(prefix: string, key: string)
    requires '*' !in prefix && '?' !in prefix
    ensures Glob(prefix + "*", key) <==> prefix <= key
    decreases |prefix|
  {
    if prefix == "" {
      assert prefix + "*" == "*";
      StarMatchesAll(key);
    } else {
      assert (prefix + "*")[1..] == prefix[1..] + "*";
      if key != "" {
        GlobPrefix(prefix[1..], key[1..]);
        assert key == [key[0]] + key[1..] && prefix == [prefix[0]] + prefix[1..];
      }
    }
  }

  /** A question mark matches any one character. */
  lemma {:induction false} GlobOne(a: string, b: string, key: string)
    requires '*' !in a && '?' !in a && '*' !in b && '?' !in b
    ensures Glob(a + "?" + b, key) <==> |key| == |a| + 1 + |b| && a <= key && b == key[|a| + 1..]
    decreases |a|
  {
    if a == "" {
      assert a + "?" + b == "?" + b && ("?" + b)[1..] == b;
      if key != "" {
        GlobPlain(b, key[1..]);
      }
    } else {
      assert (a + "?" + b)[1..] == a[1..] + "?" + b;
      if key != "" {
        GlobOne(a[1..], b, key[1..]);
        assert key == [key[0]] + key[1..] && a == [a[0]] + a[1..];
      }
    }
  }

  lemma {:induction false} GlobPlain(text: string, key: string)
    requires '*' !in text && '?' !in text
    ensures Glob(text, key) <==> text == key
  {
    if text != "" && key != "" {
      GlobPlain(text[1..], key[1..]);
      assert key == [key[0]] + key[1..] && text == [text[0]] + text[1..];
    }
  }

  lemma {:induction false} JoinKeyPlain(parts: seq<string>)
    requires PlainParts(parts)
    ensures '*' !in JoinKey(parts) && '?' !in JoinKey(parts)
  {
    if parts == [] {
    } else {
      assert PlainPart(parts[0]);
      JoinKeyPlain(parts[1..]);
    }
  }

  lemma {:induction false} JoinKeyConcat(a: seq<string>, b: seq<string>)
    ensures JoinKey(a + b) == JoinKey(a) + JoinKey(b)
  {
    if a == [] {
      assert a + b == b;
    } else {
      assert (a + b)[1..] == a[1..] + b;
      JoinKeyConcat(a[1..], b);
    }
  }

  lemma SameStart<T>(a: seq<T>, x: seq<T>, y: seq<T>)
    ensures a + x <= a + y <==> x <= y
  {
    assert (a + x)[|a|..] == x && (a + y)[|a|..] == y;
    if a + x <= a + y {
      assert x == (a + y)[..|a + x|][|a|..];
    }
  }

  /** The first parts agree when one part and what follows it start another part and what follows that. */
  lemma PrefixHead(a: string, x: string, b: string, y: string)
    requires PlainPart(a) && PlainPart(b) && x != "" && x[0] == ':' && (y == "" || y[0] == ':')
    ensures ":" + (a + x) <= ":" + (b + y) <==> a == b && x <= y
  {
    SameStart(":", a + x, b + y);
    if a + x <= b + y {
      SamePart(a, x, b, y);
    }
    SameStart(a, x, y);
  }

  lemma {:induction false} PrefixParts(parts: seq<string>, key: seq<string>)
    requires PlainParts(parts) && PlainParts(key)
    ensures JoinKey(parts) + ":" <= JoinKey(key) <==> parts < key
    decreases |parts|
  {
    if parts == [] {
      assert JoinKey(parts) + ":" == ":";
    } else if key != [] {
      var x, y := JoinKey(parts[1..]) + ":", JoinKey(key[1..]);
      assert JoinKey(parts) + ":" == ":" + (parts[0] + x) && JoinKey(key) == ":" + (key[0] + y);
      PrefixHead(parts[0], x, key[0], y);
      PrefixParts(parts[1..], key[1..]);
      assert parts == [parts[0]] + parts[1..] && key == [key[0]] + key[1..];
    } else {
      assert |JoinKey(parts) + ":"| > |JoinKey(key)|;
    }
  }

  /** The pattern built from some parts and a star matches exactly the keys with further parts
      under them. */
  lemma PatternHitsBelow(parts: seq<string>, key: seq<string>)
    requires PlainParts(parts) && PlainParts(key)
    ensures Glob(BuildKey(parts + ["*"]), BuildKey(key)) <==> parts < key
  {
    JoinKeyConcat(parts, ["*"]);
    JoinKeyPlain(parts);
    var stem := PREFIX + (JoinKey(parts) + ":");
    assert JoinKey(["*"]) == ":*";
    assert BuildKey(parts + ["*"]) == stem + "*";
    GlobPrefix(stem, BuildKey(key));
    PrefixParts(parts, key);
    assert stem[|PREFIX|..] == JoinKey(parts) + ":" && BuildKey(key)[|PREFIX|..] == JoinKey(key);
    if stem <= BuildKey(key) {
      assert BuildKey(key)[..|stem|][|PREFIX|..] == JoinKey(key)[..|stem| - |PREFIX|];
    }
    if JoinKey(parts) + ":" <= JoinKey(key) {
      assert BuildKey(key)[..|stem|] == PREFIX + JoinKey(key)[..|stem| - |PREFIX|];
    }
  }

  // ---- Entries and commands ----

  /** A value with the instant it expires at, if any. */
  datatype Entry<V> = Entry(value: V, expiry: Option<nat>)

  type Store<V> = map<string, Entry<V>>

  /** A key exists until its expiry; an expired entry may linger unseen. */
  predicate Live<V>(store: Store<V>, now: nat, key: string) {
    key in store && (store[key].expiry.Some? ==> now < store[key].expiry.value)
  }

  /** What a client can see. */
  function Contents<V>(store: Store<V>, now: nat): map<string, V> {
    map k | k in store && Live(store, now, k) :: store[k].value
  }

  function ExpiryIn(now: nat, ttlSeconds: nat): nat {
    now + 1000 * ttlSeconds
  }

  /** INCR: a missing key starts at 1 with no expiry; otherwise the expiry stays. */
  function Incr(store: Store<nat>, now: nat, key: string): Store<nat> {
    if Live(store, now, key) then store[key := store[key].(value := store[key].value + 1)]
    else store[key := Entry(1, None)]
  }

  /** TTL: -2 for a missing key, -1 without expiry, otherwise the seconds left, rounded. */
  function Ttl<V>(store: Store<V>, now: nat, key: string): int {
    if !Live(store, now, key) then -2
    else match store[key].expiry
      case None => -1
      case Some(at) => (at - now + 500) / 1000
  }

  /** EXPIRE: moves the expiry of an existing key, and does nothing to a missing one. */
  function Expire<V>(store: Store<V>, now: nat, key: string, ttlSeconds: nat): Store<V> {
    if Live(store, now, key) then store[key := store[key].(expiry := Some(ExpiryIn(now, ttlSeconds)))] else store
  }

  /** The keys of a view that match a pattern. */
  function Matching<V>(view: map<string, V>, pattern: string): set<string> {
    set k | k in view && Glob(pattern, k)
  }

  function UnionOf(buckets: seq<set<string>>): set<string> {
    if buckets == [] then {} else UnionOf(buckets[..|buckets| - 1]) + buckets[|buckets| - 1]
  }

  /** One SCAN call: the live matching keys of a bucket. */
  function ScanBucket<V>(store: Store<V>, now: nat, bucket: set<string>, pattern: string): (keys: set<string>)
    ensures keys == Matching(Contents(store, now), pattern) * bucket
  {
    set k | k in bucket && Live(store, now, k) && Glob(pattern, k)
  }

  /** The view once the matching keys among `seen` are gone, and how many they were. */
  ghost predicate Swept<V>(before: map<string, V>, view: map<string, V>, pattern: string, seen: set<string>,
                           deleted: nat)
  {
    && view == before - Matching(before, pattern) * seen
    && deleted == |Matching(before, pattern) * seen|
  }

  lemma SweepStart<V>(before: map<string, V>, pattern: string)
    ensures Swept(before, before, pattern, {}, 0)
  {
    assert Matching(before, pattern) * {} == {};
  }

  lemma MatchingLeft<V>(before: map<string, V>, pattern: string, gone: set<string>)
    ensures Matching(before - gone, pattern) == Matching(before, pattern) - gone
  {
    hide Glob;
  }

  lemma SweptSets(all: set<string>, seen: set<string>, bucket: set<string>)
    ensures all * (seen + bucket) == all * seen + (all - all * seen) * bucket
    ensures |all * (seen + bucket)| == |all * seen| + |(all - all * seen) * bucket|
  {
    assert (all * seen) !! ((all - all * seen) * bucket);
    assert all * (seen + bucket) == all * seen + (all - all * seen) * bucket;
  }

  /** Deleting the matches of one more bucket counts each key once, also when SCAN repeats it. */
  lemma SweepStep<V>(before: map<string, V>, view: map<string, V>, pattern: string, seen: set<string>,
      bucket: set<string>,
                     deleted: nat)
    requires Swept(before, view, pattern, seen, deleted)
    ensures var keys := Matching(view, pattern) * bucket;
      Swept(before, view - keys, pattern, seen + bucket, deleted + |keys|)
  {
    hide Matching;
    var all := Matching(before, pattern);
    MatchingLeft(before, pattern, all * seen);
    SweptSets(all, seen, bucket);
  }

  lemma SweepEnd<V>(before: map<string, V>, view: map<string, V>, pattern: string, seen: set<string>, deleted: nat)
    requires Swept(before, view, pattern, seen, deleted) && before.Keys <= seen
    ensures view == before - Matching(before, pattern) && deleted == |Matching(before, pattern)|
  {
    assert Matching(before, pattern) * seen == Matching(before, pattern);
  }

  class RedisService<V(==)> {
    var ready: bool
    var now: nat
    var store: Store<V>
    /** The hash table SCAN walks: every key sits in some bucket. */
    var buckets: seq<set<string>>

    ghost predicate Valid()
      reads this
    {
      store.Keys <= UnionOf(buckets)
    }

    ghost function View(): map<string, V>
      reads this
    {
      Contents(store, now)
    }

    constructor (isReady: bool)
      ensures Valid() && ready == isReady && now == 0 && View() == map[]
    {
      ready, now, store, buckets := isReady, 0, map[], [];
    }

    /** get */
    method Get(key: string) returns (r: Option<V>)
      ensures r == if ready && key in View() then Some(View()[key]) else None
    {
      if !ready || !Live(store, now, key) {
        return None;
      }
      r := Some(store[key].value);
    }

    /** set; a TTL of 0 stands for none. */
    method Set(key: string, value: V, ttlSeconds: nat) returns (r: bool)
      requires Valid()
      modifies this
      ensures Valid() && ready == old(ready) && now == old(now)
      ensures r == ready
      ensures View() == if ready then old(View())[key := value] else old(View())
      ensures ready ==> key in store
      ensures ready ==> store[key].expiry == if ttlSeconds == 0 then None else Some(now + 1000 * ttlSeconds)
    {
      if !ready {
        return false;
      }
      store := store[key := Entry(value, if ttlSeconds == 0 then None else Some(ExpiryIn(now, ttlSeconds)))];
      assert (buckets + [{key}])[..|buckets|] == buckets;
      buckets := buckets + [{key}];
      r := true;
    }

    /** DEL on a batch of keys; counts the keys that were there. */
    method Del(keys: set<string>) returns (deleted: nat)
      requires Valid()
      modifies this`store
      ensures Valid()
      ensures store == if ready then old(store) - keys else old(store)
      ensures deleted == if ready then |old(View()).Keys * keys| else 0
      ensures View() == if ready then old(View()) - keys else old(View())
    {
      if !ready {
        return 0;
      }
      deleted := |set k | k in keys && k in store && Live(store, now, k)|;
      assert (set k | k in keys && k in store && Live(store, now, k)) == View().Keys * keys;
      store := store - keys;
    }

    /** One round of delPattern: a SCAN call and the DEL of what it returned, if anything. */
    method DeleteRound(cursor: nat, pattern: string) returns (n: nat)
      requires Valid() && ready && cursor < |buckets|
      modifies this`store
      ensures Valid()
      ensures View() == old(View()) - (Matching(old(View()), pattern) * buckets[cursor])
      ensures n == |Matching(old(View()), pattern) * buckets[cursor]|
    {
      var keys := ScanBucket(store, now, buckets[cursor], pattern);
      assert View().Keys * keys == keys;
      assert keys == {} ==> View() - keys == View();
      n := 0;
      if keys != {} {
        n := Del(keys);
      }
    }

    /** delPattern: walks the table bucket by bucket with SCAN and deletes what each call returns.
        Whatever the layout of the table, exactly the matching keys go, each counted once. */
    method DelPattern(pattern: string) returns (deleted: nat)
      requires Valid()
      modifies this`store
      ensures Valid()
      ensures View() == if ready then old(View()) - Matching(old(View()), pattern) else old(View())
      ensures deleted == if ready then |Matching(old(View()), pattern)| else 0
    {
      hide Swept, Matching, Contents;
      if !ready {
        return 0;
      }
      deleted := 0;
      var cursor := 0;
      ghost var before := View();
      KeysInTable();
      SweepStart(before, pattern);
      while cursor < |buckets|
        invariant 0 <= cursor <= |buckets|
        invariant Valid()
        invariant Swept(before, View(), pattern, UnionOf(buckets[..cursor]), deleted)
      {
        assert buckets[..cursor + 1][..cursor] == buckets[..cursor];
        SweepStep(before, View(), pattern, UnionOf(buckets[..cursor]), buckets[cursor], deleted);
        var n := DeleteRound(cursor, pattern);
        deleted := deleted + n;
        cursor := cursor + 1;
      }
      assert buckets[..cursor] == buckets;
      SweepEnd(before, View(), pattern, UnionOf(buckets), deleted);
    }

    lemma KeysInTable()
      requires Valid()
      ensures View().Keys <= UnionOf(buckets)
    {
    }

    /** Time passes; keys may reach their expiry. */
    method Tick(ms: nat)
      modifies this`now
      ensures now == old(now) + ms
      ensures View().Keys <= old(View()).Keys
      ensures forall k | k in View() :: View()[k] == old(View())[k]
    {
      now := now + ms;
    }
  }

  // ---- Counters: the two round trips of increment ----

  /** A key that was visible counts one more and keeps its expiry, any other starts at 1 without one, and
      no other key changes. */
  ghost predicate Counted(before: Store<nat>, after: Store<nat>, now: nat, key: string) {
    var visible := key in before && (before[key].expiry == None || now < before[key].expiry.value);
    && key in after
    && after[key].value == (if visible then before[key].value + 1 else 1)
    && after[key].expiry == (if visible then before[key].expiry else None)
    && after - {key} == before - {key}
  }

  /** Within half a second of what is left, in whole seconds; -1 without an expiry. */
  ghost predicate Seconds<V>(store: Store<V>, now: nat, key: string, seconds: int)
    requires key in store
  {
    match store[key].expiry
    case None => seconds == -1
    case Some(at) => -500 <= 1000 * seconds - (at - now) <= 500
  }

  /** A visible key has this many seconds from now on and keeps its value; if the key is not visible, nothing
      changes, and no other key does in any case. */
  ghost predicate Given(before: Store<nat>, after: Store<nat>, now: nat, key: string, ttlSeconds: nat) {
    var visible := key in before && (before[key].expiry == None || now < before[key].expiry.value);
    if visible then
      && key in after && after[key] == Entry(before[key].value, Some(now + 1000 * ttlSeconds))
      && after - {key} == before - {key}
    else after == before
  }

  /** The transaction INCR, TTL of increment; null when Redis is not ready. */
  method IncrTtl(redis: RedisService<nat>, key: string) returns (r: Option<(nat, int)>)
    requires redis.Valid()
    modifies redis
    ensures redis.Valid() && redis.now == old(redis.now) && redis.ready == old(redis.ready)
    ensures redis.store == if redis.ready then Incr(old(redis.store), redis.now, key) else old(redis.store)
    ensures r == if redis.ready then Some((redis.store[key].value, Ttl(redis.store, redis.now, key))) else None
    ensures redis.ready ==> Counted(old(redis.store), redis.store, redis.now, key)
    ensures redis.ready ==> Seconds(redis.store, redis.now, key, r.value.1)
  {
    if !redis.ready {
      return None;
    }
    redis.store := Incr(redis.store, redis.now, key);
    assert (redis.buckets + [{key}])[..|redis.buckets|] == redis.buckets;
    redis.buckets := redis.buckets + [{key}];
    r := Some((redis.store[key].value, Ttl(redis.store, redis.now, key)));
  }

  /** The EXPIRE of increment. It is sent only when the transaction saw no expiry, and by then the
      store may have changed. */
  method ExpireIfNew(redis: RedisService<nat>, key: string, count: nat, ttl: int, ttlSeconds: nat)
    returns (r: (nat, int))
    requires redis.Valid()
    modifies redis`store
    ensures redis.Valid()
    ensures redis.store == if ttl == -1 && ttlSeconds != 0 then Expire(old(redis.store), redis.now, key, ttlSeconds)
                           else old(redis.store)
    ensures if ttl == -1 && ttlSeconds != 0 then Given(old(redis.store), redis.store, redis.now, key, ttlSeconds)
            else redis.store == old(redis.store)
    ensures r == (count, if ttl == -1 then ttlSeconds else ttl)
  {
    if ttl == -1 && ttlSeconds != 0 {
      redis.store := Expire(redis.store, redis.now, key, ttlSeconds);
    }
    r := (count, if ttl == -1 then ttlSeconds else ttl);
  }

  /** A value stored with a time to live is there for exactly that many seconds. */
  lemma VisibleUntilExpiry<V>(store: Store<V>, now: nat, key: string, value: V, ttlSeconds: nat, ms: nat)
    ensures Live(store[key := Entry(value, Some(ExpiryIn(now, ttlSeconds)))], now + ms, key) <==> ms < 1000 * ttlSeconds
  {
  }
}
