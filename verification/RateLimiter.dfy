/** The distributed rate limiter: server instances share one counter per key in Redis. A request
    increments the counter and reads its TTL in one transaction; only if it saw no expiry does it
    set one, in a second command that anything may precede. The step system interleaves the two
    commands of any number of requests with each other, with the clock, and with failures. */
module RateLimiter {
  import opened Outcomes
  import opened RedisStore

  // ---- One request ----

  datatype Limits = Limits(max: nat, windowSec: nat) {
    function Window(): nat {
      1000 * windowSec
    }
  }

  /** The configuration defaults; 0 stands for an absent (or zero) option. */
  function ResolveLimits(max: nat, maxRequests: nat, windowSec: nat, windowMs: nat): (l: Limits)
    ensures l.max >= 1 && l.windowSec >= 1
    ensures max != 0 ==> l.max == max
    ensures max == 0 && maxRequests != 0 ==> l.max == maxRequests
    ensures max == 0 && maxRequests == 0 ==> l.max == 100
    ensures windowSec != 0 ==> l.windowSec == windowSec
    ensures windowSec == 0 && windowMs == 0 ==> l.windowSec == 900
    ensures windowSec == 0 && windowMs > 0 ==> l.Window() - 1000 < windowMs <= l.Window()
  {
    Limits(if max != 0 then max else if maxRequests != 0 then maxRequests else 100,
           if windowSec != 0 then windowSec else if windowMs != 0 then (windowMs + 999) / 1000 else 900)
  }

  datatype Verdict =
    | FailOpen
    | Admitted(remaining: nat, reset: int)
    | Rejected(retryAfter: int)

  function Decide(limits: Limits, count: nat, ttl: int): Verdict {
    var reset := if ttl > 0 then ttl else limits.windowSec;
    if count > limits.max then Rejected(reset) else Admitted(limits.max - count, reset)
  }

  /** The seconds announced are within half a second of the milliseconds left; when less than half a
      second is left, the whole window is announced. */
  predicate Announces(limits: Limits, left: int, seconds: int) {
    if left >= 500 then -500 <= 1000 * seconds - left <= 500 else seconds == limits.windowSec
  }

  /** The handler, with nobody else at work: the fail-open branch changes nothing, and every other
      call counts the request, leaves the key with an expiry, and admits exactly the first `max`
      requests of a counter. */
  method Handle(redis: RedisService<nat>, limits: Limits, identifier: string, tier: string) returns (v: Verdict)
    requires redis.Valid() && limits.windowSec >= 1
    modifies redis
    ensures redis.Valid()
    ensures !old(redis.ready) ==> v == FailOpen && redis.store == old(redis.store)
    ensures old(redis.ready) ==>
              && var key := BuildKey(["ratelimit", tier, identifier]);
              && var counted := Incr(old(redis.store), redis.now, key);
              && (v.Admitted? <==> counted[key].value <= limits.max)
              && (v.Rejected? <==> counted[key].value > limits.max)
              && var left := Ttl(counted, redis.now, key);
              && var reset := if left > 0 then left else limits.windowSec;
              && (v.Admitted? ==> v.remaining + counted[key].value == limits.max && v.reset == reset)
              && (v.Rejected? ==> v.retryAfter == reset)
              && redis.store == (if counted[key].expiry.None? then Expire(counted, redis.now, key, limits.windowSec)
                                 else counted)
              && Live(redis.store, redis.now, key) && redis.store[key].expiry.Some?
    ensures old(redis.ready) ==>
              && var key := BuildKey(["ratelimit", tier, identifier]);
              && key in redis.store && redis.store[key].expiry.Some?
              && var left := redis.store[key].expiry.value - redis.now;
              && (v.Admitted? ==>
                    v.remaining + redis.store[key].value == limits.max && Announces(limits, left, v.reset))
              && (v.Rejected? ==> redis.store[key].value > limits.max && Announces(limits, left, v.retryAfter))
              && (!old(Live(redis.store, redis.now, key)) ==>
                    && redis.store[key].value == 1 && left == 1000 * limits.windowSec
                    && (v.Admitted? ==> v.reset == limits.windowSec)
                    && (v.Rejected? ==> v.retryAfter == limits.windowSec))
              && (old(Live(redis.store, redis.now, key)) ==> redis.store[key].value == old(redis.store)[key].value + 1)
  {
    var key := BuildKey(["ratelimit", tier, identifier]);
    var first := IncrTtl(redis, key);
    if first.None? {
      return FailOpen;
    }
    var (count, ttl) := first.value;
    var result := ExpireIfNew(redis, key, count, ttl, limits.windowSec);
    v := Decide(limits, result.0, result.1);
  }

  // ---- The cluster ----

  /** A request counted by Redis: which counter (the era is the number of earlier counters under
      the same key), its value, and when. */
  datatype Hit = Hit(key: string, era: nat, count: nat, time: nat)

  /** births, hits, admitted and completed are history: no step depends on them, except that an
      era is read off the births. */
  datatype Cluster = Cluster(
    now: nat,
    store: Store<nat>,
    births: map<string, seq<nat>>,
    pending: set<Hit>,      // saw no expiry, EXPIRE not yet executed
    hits: set<Hit>,
    admitted: set<Hit>,     // counted, and let through for a count within the limit
    completed: set<Hit>)    // increment returned a count

  const INITIAL := Cluster(0, map[], map[], {}, {}, {}, {})

  datatype Reply = Delivered | LostAfter | LostBefore

  datatype Event =
    | Arrive(key: string, reply: Reply)    // the transaction; a lost reply fails open
    | SendExpire(hit: Hit, reply: Reply)   // the second command; a lost reply fails open
    | Crash(hit: Hit)                      // the instance dies between the two
    | Tick(ms: nat)

  predicate Enabled(s: Cluster, e: Event) {
    match e
    case SendExpire(h, _) => h in s.pending
    case Crash(h) => h in s.pending
    case _ => true
  }

  function BirthsOf(s: Cluster, key: string): seq<nat> {
    if key in s.births then s.births[key] else []
  }

  /** The counter a transaction would use: a new one when the key is missing or expired. */
  function BirthsAfter(s: Cluster, key: string): (births: seq<nat>)
    ensures |births| >= 1
  {
    if Live(s.store, s.now, key) && BirthsOf(s, key) != [] then BirthsOf(s, key) else BirthsOf(s, key) + [s.now]
  }

  function NextHit(s: Cluster, key: string): Hit {
    Hit(key, |BirthsAfter(s, key)| - 1, Incr(s.store, s.now, key)[key].value, s.now)
  }

  /** The increment returned: the handler decides on the count. */
  function Complete(limits: Limits, s: Cluster, h: Hit): Cluster {
    s.(completed := s.completed + {h}, admitted := if h.count > limits.max then s.admitted else s.admitted + {h})
  }

  function Count(s: Cluster, key: string): Cluster {
    s.(store := Incr(s.store, s.now, key), births := s.births[key := BirthsAfter(s, key)],
       hits := s.hits + {NextHit(s, key)})
  }

  function Step(limits: Limits, s: Cluster, e: Event): Cluster
    requires Enabled(s, e)
  {
    match e
    case Arrive(key, reply) =>
      if reply == LostBefore then s
      else if reply == LostAfter then Count(s, key)
      else if Ttl(Incr(s.store, s.now, key), s.now, key) == -1 then
        Count(s, key).(pending := s.pending + {NextHit(s, key)})
      else Complete(limits, Count(s, key), NextHit(s, key))
    case SendExpire(h, reply) =>
      var sent := s.(pending := s.pending - {h});
      var done := sent.(store := Expire(s.store, s.now, h.key, limits.windowSec));
      if reply == LostBefore then sent else if reply == LostAfter then done else Complete(limits, done, h)
    case Crash(h) => s.(pending := s.pending - {h})
    case Tick(ms) => s.(now := s.now + ms)
  }

  function Execute(limits: Limits, s: Cluster, events: seq<Event>): Cluster
    decreases |events|
  {
    if events == [] then s
    else Execute(limits, if Enabled(s, events[0]) then Step(limits, s, events[0]) else s, events[1..])
  }

  // ---- What every reachable state keeps ----

  /** Past instants at least a window apart. */
  ghost predicate Spread(b: seq<nat>, window: nat, now: nat) {
    && (forall i | 0 <= i < |b| :: b[i] <= now)
    && (forall i, j | 0 <= i < j < |b| :: b[i] + window <= b[j])
  }

  lemma SpreadAppend(b: seq<nat>, window: nat, now: nat)
    requires Spread(b, window, now) && (b != [] ==> b[|b| - 1] + window <= now)
    ensures Spread(b + [now], window, now)
  {
  }

  /** Counters under one key follow each other at least a window apart. */
  ghost predicate BirthsOk(limits: Limits, s: Cluster, key: string) {
    var b := BirthsOf(s, key);
    && Spread(b, limits.Window(), s.now)
    && (key in s.store <==> b != [])
    && (key in s.store && s.store[key].expiry.Some? ==>
          b[|b| - 1] + limits.Window() <= s.store[key].expiry.value)
  }

  /** A hit falls within the life of its counter. */
  ghost predicate HitOk(s: Cluster, h: Hit) {
    var b := BirthsOf(s, h.key);
    && h.era < |b|
    && b[h.era] <= h.time <= s.now && h.count >= 1
    && (h.era + 1 < |b| ==> h.time < b[h.era + 1])
    && (h.era + 1 == |b| ==>
          && h.key in s.store && h.count <= s.store[h.key].value
          && (s.store[h.key].expiry.Some? ==> h.time < s.store[h.key].expiry.value))
  }

  /** The counter of a completed hit has an expiry, or is over. */
  ghost predicate Guarded(s: Cluster, h: Hit) {
    h.era + 1 == |BirthsOf(s, h.key)| ==> h.key in s.store && s.store[h.key].expiry.Some?
  }

  ghost predicate Inv(limits: Limits, s: Cluster) {
    && (forall key :: BirthsOk(limits, s, key))
    && (forall h | h in s.hits :: HitOk(s, h))
    && (forall h, g | h in s.hits && g in s.hits && h.key == g.key && h.era == g.era && h.count == g.count :: h == g)
    && s.pending <= s.hits && s.completed <= s.hits && s.admitted <= s.hits
    && (forall h | h in s.admitted :: h.count <= limits.max)
    && (forall h | h in s.completed :: Guarded(s, h))
  }

  lemma CountBirths(limits: Limits, s: Cluster, key: string, k: string)
    requires BirthsOk(limits, s, key) && BirthsOk(limits, s, k)
    ensures BirthsOk(limits, Count(s, key), k)
  {
    if k == key && !Live(s.store, s.now, key) {
      SpreadAppend(BirthsOf(s, key), limits.Window(), s.now);
    }
  }

  lemma CountHits(limits: Limits, s: Cluster, key: string, g: Hit)
    requires BirthsOk(limits, s, key) && (HitOk(s, g) || g == NextHit(s, key))
    ensures HitOk(Count(s, key), g)
  {
  }

  /** The new hit's place is not taken: within a counter the values only rise. */
  lemma CountRises(limits: Limits, s: Cluster, key: string, g: Hit)
    requires BirthsOk(limits, s, key) && HitOk(s, g)
    requires g.key == key && g.era == NextHit(s, key).era
    ensures g.count < NextHit(s, key).count
  {
  }

  lemma CountGuarded(limits: Limits, s: Cluster, key: string, g: Hit)
    requires BirthsOk(limits, s, key) && HitOk(s, g) && Guarded(s, g)
    ensures Guarded(Count(s, key), g)
  {
  }

  lemma CountKeepsInv(limits: Limits, s: Cluster, key: string)
    requires Inv(limits, s) && limits.windowSec >= 1
    ensures Inv(limits, Count(s, key))
  {
    hide BirthsOk, HitOk, Guarded;
    var t, h := Count(s, key), NextHit(s, key);
    assert BirthsOk(limits, s, key);
    forall k ensures BirthsOk(limits, t, k) {
      CountBirths(limits, s, key, k);
    }
    forall g | g in t.hits ensures HitOk(t, g) {
      CountHits(limits, s, key, g);
    }
    forall g | g in s.hits && g.key == key && g.era == h.era ensures g.count < h.count {
      CountRises(limits, s, key, g);
    }
    forall g | g in t.completed ensures Guarded(t, g) {
      CountGuarded(limits, s, key, g);
    }
  }

  lemma ExpireKeepsInv(limits: Limits, s: Cluster, key: string)
    requires Inv(limits, s) && limits.windowSec >= 1
    ensures Inv(limits, s.(store := Expire(s.store, s.now, key, limits.windowSec)))
  {
    var t := s.(store := Expire(s.store, s.now, key, limits.windowSec));
    forall k ensures BirthsOk(limits, t, k) {
      assert BirthsOk(limits, s, k);
    }
    forall g | g in t.hits ensures HitOk(t, g) {
      assert HitOk(s, g);
    }
    forall g | g in t.completed ensures Guarded(t, g) {
      assert Guarded(s, g) && HitOk(s, g);
    }
  }

  /** Steps that leave the counters alone: time passing, and requests being noted or forgotten. */
  lemma QuietStep(limits: Limits, s: Cluster, t: Cluster)
    requires Inv(limits, s)
    requires t.store == s.store && t.births == s.births && t.hits == s.hits && s.now <= t.now
    requires t.pending <= s.hits && t.completed <= s.hits && t.admitted <= s.hits
    requires forall h | h in t.admitted :: h.count <= limits.max
    requires forall h | h in t.completed :: h in s.completed || Guarded(s, h)
    ensures Inv(limits, t)
  {
    forall k ensures BirthsOk(limits, t, k) {
      assert BirthsOk(limits, s, k);
    }
    forall g | g in t.hits ensures HitOk(t, g) {
      assert HitOk(s, g);
    }
    forall g | g in t.completed ensures Guarded(t, g) {
      assert Guarded(s, g);
    }
  }

  /** After an EXPIRE the counter of the hit that sent it has an expiry or is over, even when the
      command landed on a later counter or on no key at all. */
  lemma ExpireGuards(limits: Limits, s: Cluster, h: Hit)
    requires Inv(limits, s) && h in s.hits
    ensures Guarded(s.(store := Expire(s.store, s.now, h.key, limits.windowSec)), h)
  {
    assert HitOk(s, h);
  }

  lemma StepKeepsInv(limits: Limits, s: Cluster, e: Event)
    requires Inv(limits, s) && limits.windowSec >= 1 && Enabled(s, e)
    ensures Inv(limits, Step(limits, s, e))
  {
    hide BirthsOk, HitOk;
    match e
    case Arrive(key, reply) =>
      if reply != LostBefore {
        CountKeepsInv(limits, s, key);
        SeenExpiryGuards(limits, s, key);
        QuietStep(limits, Count(s, key), Step(limits, s, e));
      }
    case SendExpire(h, reply) =>
      var done := s.(store := Expire(s.store, s.now, h.key, limits.windowSec));
      ExpireKeepsInv(limits, s, h.key);
      ExpireGuards(limits, s, h);
      QuietStep(limits, if reply == LostBefore then s else done, Step(limits, s, e));
    case Crash(h) => QuietStep(limits, s, Step(limits, s, e));
    case Tick(ms) => QuietStep(limits, s, Step(limits, s, e));
  }

  /** A request that saw a TTL other than -1 counted on a counter that has an expiry. */
  lemma SeenExpiryGuards(limits: Limits, s: Cluster, key: string)
    ensures Ttl(Incr(s.store, s.now, key), s.now, key) != -1 ==> Guarded(Count(s, key), NextHit(s, key))
  {
  }

  lemma {:induction false} ExecuteKeepsInv(limits: Limits, s: Cluster, events: seq<Event>)
    requires Inv(limits, s) && limits.windowSec >= 1
    ensures Inv(limits, Execute(limits, s, events))
    decreases |events|
  {
    if events == [] {
    } else {
      if Enabled(s, events[0]) {
        StepKeepsInv(limits, s, events[0]);
        ExecuteKeepsInv(limits, Step(limits, s, events[0]), events[1..]);
      } else {
        ExecuteKeepsInv(limits, s, events[1..]);
      }
    }
  }

  // ---- At most two windows' worth ----

  /** The admissions of a key that Redis counted within one window from `from` (both ends in). */
  function AdmittedWithin(limits: Limits, s: Cluster, key: string, from: nat): set<Hit> {
    set h | h in s.admitted && h.key == key && from <= h.time <= from + limits.Window()
  }

  /** Two hits within a window belong to the same counter or to neighbours. */
  lemma NeighbouringEras(limits: Limits, s: Cluster, g: Hit, h: Hit)
    requires Inv(limits, s) && g in s.hits && h in s.hits && g.key == h.key
    ensures h.era > g.era + 1 ==> h.time > g.time + limits.Window()
  {
    assert HitOk(s, g) && HitOk(s, h) && BirthsOk(limits, s, g.key);
    var b := BirthsOf(s, g.key);
    assert h.era > g.era + 1 ==> b[g.era + 1] + limits.Window() <= b[h.era];
  }

  /** A set whose members have distinct codes below n has at most n members. */
  lemma {:induction false} CodedSize(hits: set<Hit>, code: Hit -> int, n: nat)
    requires forall h | h in hits :: 0 <= code(h) < n
    requires forall g, h | g in hits && h in hits && code(g) == code(h) :: g == h
    ensures |hits| <= n
  {
    if n == 0 {
      assert hits == {};
    } else if h :| h in hits && code(h) == n - 1 {
      CodedSize(hits - {h}, code, n - 1);
    } else {
      CodedSize(hits, code, n - 1);
    }
  }

  /** The admissions within a window come from at most two counters, the first of them `era`. */
  lemma TwoErasAtMost(limits: Limits, s: Cluster, key: string, from: nat) returns (era: int)
    requires Inv(limits, s)
    ensures forall h | h in AdmittedWithin(limits, s, key, from) :: era <= h.era <= era + 1
  {
    hide Inv;
    var within := AdmittedWithin(limits, s, key, from);
    forall g, h | g in within && h in within ensures h.era <= g.era + 1 {
      AdmittedAreHits(limits, s, g);
      AdmittedAreHits(limits, s, h);
      NeighbouringEras(limits, s, g, h);
    }
    era := 0;
    if within != {} {
      var any :| any in within;
      era := any.era;
      if g :| g in within && g.era < any.era {
        era := g.era;
      }
    }
  }

  lemma AdmittedAreHits(limits: Limits, s: Cluster, h: Hit)
    requires Inv(limits, s) && h in s.admitted
    ensures h in s.hits && 1 <= h.count <= limits.max
  {
    assert HitOk(s, h);
  }

  /** Over every run, in every interleaving of increments and delayed expiries, with lost replies
      and crashes: any interval of one window holds at most 2 * max admissions of a key, counted
      when Redis counted them. */
  lemma AdmissionsBounded(limits: Limits, events: seq<Event>, key: string, from: nat)
    requires limits.windowSec >= 1
    ensures |AdmittedWithin(limits, Execute(limits, INITIAL, events), key, from)| <= 2 * limits.max
  {
    ExecuteKeepsInv(limits, INITIAL, events);
    WithinBounded(limits, Execute(limits, INITIAL, events), key, from);
  }

  lemma WithinBounded(limits: Limits, s: Cluster, key: string, from: nat)
    requires Inv(limits, s)
    ensures |AdmittedWithin(limits, s, key, from)| <= 2 * limits.max
  {
    hide BirthsOk, HitOk, Guarded;
    var within := AdmittedWithin(limits, s, key, from);
    var era := TwoErasAtMost(limits, s, key, from);
    forall h | h in within ensures h in s.hits && 1 <= h.count <= limits.max {
      AdmittedAreHits(limits, s, h);
    }
    CodedSize(within, (h: Hit) => if h.era == era then h.count - 1 else limits.max + h.count - 1, 2 * limits.max);
  }

  /** Over every run: once an increment has completed, its counter has an expiry for as long as
      the key holds that counter; after that the key is gone or counts anew. */
  lemma CompletedIsGuarded(limits: Limits, events: seq<Event>, h: Hit)
    requires limits.windowSec >= 1
    requires h in Execute(limits, INITIAL, events).completed
    ensures var s := Execute(limits, INITIAL, events);
      Live(s.store, s.now, h.key) && h.era + 1 == |BirthsOf(s, h.key)| ==> s.store[h.key].expiry.Some?
  {
    ExecuteKeepsInv(limits, INITIAL, events);
    assert Guarded(Execute(limits, INITIAL, events), h);
  }

  /** At the moment an increment completes, its key has an expiry or is gone, whichever counter the key
      holds by then: also when the counter of the request is over and its EXPIRE lands on a later one. */
  lemma CompletionFindsExpiry(limits: Limits, events: seq<Event>, e: Event, h: Hit)
    requires limits.windowSec >= 1
    requires var s := Execute(limits, INITIAL, events);
      Enabled(s, e) && h in Step(limits, s, e).completed && h !in s.completed
    ensures var t := Step(limits, Execute(limits, INITIAL, events), e);
      Live(t.store, t.now, h.key) ==> t.store[h.key].expiry.Some?
  {
    var s := Execute(limits, INITIAL, events);
    ExecuteKeepsInv(limits, INITIAL, events);
    if e.Arrive? {
      CompletionOnArrival(limits, s, e.key);
    }
  }

  lemma CompletionOnArrival(limits: Limits, s: Cluster, key: string)
    ensures var counted := Incr(s.store, s.now, key);
      Ttl(counted, s.now, key) != -1 ==> Live(counted, s.now, key) ==> counted[key].expiry.Some?
  {
  }

  /** Later on the key may count anew without an expiry: after a completed request whose counter ran out,
      the next request's counter has none until its own EXPIRE. */
  lemma LaterCounterUnguarded(limits: Limits, key: string) returns (events: seq<Event>, h: Hit)
    requires limits.windowSec >= 1
    ensures var s := Execute(limits, INITIAL, events);
      h in s.completed && h.key == key && Live(s.store, s.now, key) && s.store[key].expiry.None?
  {
    h := Hit(key, 0, 1, 0);
    var a, e, t := Arrive(key, Delivered), SendExpire(h, Delivered), Tick(limits.Window());
    events := [a, e, t, a];
    var s1 := Step(limits, INITIAL, a);
    assert h in s1.pending;
    var s2 := Step(limits, s1, e);
    assert s2.store[key].expiry == Some(limits.Window());
    var s3 := Step(limits, s2, t);
    ExecuteOne(limits, INITIAL, a, [e, t, a]);
    ExecuteOne(limits, s1, e, [t, a]);
    ExecuteOne(limits, s2, t, [a]);
    ExecuteOne(limits, s3, a, []);
    assert [a] + [e, t, a] == events && [e] + [t, a] == [e, t, a] && [t] + [a] == [t, a] && [a] + [] == [a];
  }

  /** A crash can leave a counter without expiry, but not for good: the next request that gets its
      two commands through gives it one. */
  lemma StuckKeyRecovers(limits: Limits, s: Cluster, key: string)
    requires Live(s.store, s.now, key) && s.store[key].expiry.None? && limits.windowSec >= 1
    ensures var h := NextHit(s, key);
      var t := Execute(limits, s, [Arrive(key, Delivered), SendExpire(h, Delivered)]);
      key in t.store && t.store[key].expiry == Some(ExpiryIn(s.now, limits.windowSec)) && h in t.completed
  {
    var h := NextHit(s, key);
    var a, e := Arrive(key, Delivered), SendExpire(h, Delivered);
    var s1 := Step(limits, s, a);
    assert [a, e][1..] == [e] && [e][1..] == [];
    assert Execute(limits, s, [a, e]) == Execute(limits, s1, [e]);
    assert Execute(limits, s1, [e]) == Step(limits, s1, e);
  }

  /** The two steps of an undisturbed request do to a reachable state what the handler does: the same
      store, and the same decision about the request. */
  lemma HandlerIsTwoSteps(limits: Limits, events: seq<Event>, key: string)
    requires limits.windowSec >= 1
    ensures var s := Execute(limits, INITIAL, events);
      var h, counted := NextHit(s, key), Incr(s.store, s.now, key);
      var t := Execute(limits, s, [Arrive(key, Delivered), SendExpire(h, Delivered)]);
      && t.store == (if counted[key].expiry.None? then Expire(counted, s.now, key, limits.windowSec) else counted)
      && h in t.completed - s.completed
      && t.admitted - s.admitted == if counted[key].value <= limits.max then {h} else {}
  {
    var s := Execute(limits, INITIAL, events);
    ExecuteKeepsInv(limits, INITIAL, events);
    RequestIsTwoSteps(limits, s, key);
  }

  lemma RequestIsTwoSteps(limits: Limits, s: Cluster, key: string)
    requires Inv(limits, s) && limits.windowSec >= 1
    ensures var h, counted := NextHit(s, key), Incr(s.store, s.now, key);
      var t := Execute(limits, s, [Arrive(key, Delivered), SendExpire(h, Delivered)]);
      && t.store == (if counted[key].expiry.None? then Expire(counted, s.now, key, limits.windowSec) else counted)
      && h in t.completed - s.completed
      && t.admitted - s.admitted == if counted[key].value <= limits.max then {h} else {}
  {
    var h := NextHit(s, key);
    var a, e := Arrive(key, Delivered), SendExpire(h, Delivered);
    NextHitIsNew(limits, s, key);
    ExecuteOne(limits, s, a, [e]);
    assert [a] + [e] == [a, e];
    var s1 := Step(limits, s, a);
    if Enabled(s1, e) {
      ExecuteOne(limits, s1, e, []);
      assert [e] + [] == [e];
    } else {
      assert [e][1..] == [];
    }
  }

  lemma NextHitIsNew(limits: Limits, s: Cluster, key: string)
    requires Inv(limits, s)
    ensures NextHit(s, key) !in s.hits
  {
    hide BirthsOk, HitOk;
    var h := NextHit(s, key);
    if h in s.hits {
      assert BirthsOk(limits, s, key) && HitOk(s, h);
      CountRises(limits, s, key, h);
    }
  }

  // ---- The bound is reached ----

  function Burst(key: string, n: nat): seq<Event> {
    if n == 0 then [] else [Arrive(key, Delivered)] + Burst(key, n - 1)
  }

  /** The hits of one counter at one instant, numbered lo + 1 .. hi. */
  function Volley(key: string, era: nat, lo: nat, hi: nat, time: nat): set<Hit> {
    set c: nat | lo < c <= hi :: Hit(key, era, c, time)
  }

  lemma {:induction false} VolleySize(key: string, era: nat, lo: nat, hi: nat, time: nat)
    requires lo <= hi
    ensures |Volley(key, era, lo, hi, time)| == hi - lo
    decreases hi - lo
  {
    if lo < hi {
      VolleySize(key, era, lo, hi - 1, time);
      assert Volley(key, era, lo, hi, time) == Volley(key, era, lo, hi - 1, time) + {Hit(key, era, hi, time)};
    } else {
      assert Volley(key, era, lo, hi, time) == {};
    }
  }

  lemma {:induction false} ExecuteConcat(limits: Limits, s: Cluster, a: seq<Event>, b: seq<Event>)
    ensures Execute(limits, s, a + b) == Execute(limits, Execute(limits, s, a), b)
    decreases |a|
  {
    if a == [] {
      assert a + b == b;
    } else {
      assert (a + b)[1..] == a[1..] + b;
      ExecuteConcat(limits, if Enabled(s, a[0]) then Step(limits, s, a[0]) else s, a[1..], b);
    }
  }

  lemma VolleyJoin(key: string, era: nat, lo: nat, hi: nat, time: nat)
    requires lo < hi
    ensures {Hit(key, era, lo + 1, time)} + Volley(key, era, lo + 1, hi, time) == Volley(key, era, lo, hi, time)
  {
  }

  lemma ExecuteOne(limits: Limits, s: Cluster, e: Event, rest: seq<Event>)
    requires Enabled(s, e)
    ensures Execute(limits, s, [e] + rest) == Execute(limits, Step(limits, s, e), rest)
  {
    assert ([e] + rest)[1..] == rest;
  }

  /** A counter that has an expiry admits the next request within the limit at once. */
  lemma ArrivalAdmitted(limits: Limits, s: Cluster, key: string)
    requires Live(s.store, s.now, key) && s.store[key].expiry.Some? && BirthsOf(s, key) != []
    requires s.store[key].value < limits.max
    ensures var h := Hit(key, |BirthsOf(s, key)| - 1, s.store[key].value + 1, s.now);
      Step(limits, s, Arrive(key, Delivered)) ==
      s.(store := s.store[key := s.store[key].(value := s.store[key].value + 1)],
         hits := s.hits + {h}, completed := s.completed + {h}, admitted := s.admitted + {h})
  {
    assert s.births[key := s.births[key]] == s.births;
  }

  /** A counter that has an expiry admits every request of a burst that keeps it within the limit. */
  lemma {:induction false} BurstAdmits(limits: Limits, s: Cluster, key: string, n: nat)
    requires Live(s.store, s.now, key) && s.store[key].expiry.Some? && BirthsOf(s, key) != []
    requires s.store[key].value + n <= limits.max
    ensures var t := Execute(limits, s, Burst(key, n));
      && t.now == s.now && t.births == s.births && t.pending == s.pending
      && t.store == s.store[key := s.store[key].(value := s.store[key].value + n)]
      && t.admitted ==
         s.admitted + Volley(key, |BirthsOf(s, key)| - 1, s.store[key].value, s.store[key].value + n, s.now)
    decreases n
  {
    hide Step;
    var era, c := |BirthsOf(s, key)| - 1, s.store[key].value;
    if n > 0 {
      var e := Arrive(key, Delivered);
      ArrivalAdmitted(limits, s, key);
      ExecuteOne(limits, s, e, Burst(key, n - 1));
      BurstAdmits(limits, Step(limits, s, e), key, n - 1);
      VolleyJoin(key, era, c, c + n, s.now);
    } else {
      assert Volley(key, era, c, c, s.now) == {};
    }
  }

  /** A full counter's worth of requests at once: the first sets the expiry, the others follow. */
  function Wave(s: Cluster, key: string, n: nat): seq<Event>
    requires n >= 1
  {
    [Arrive(key, Delivered)] + ([SendExpire(NextHit(s, key), Delivered)] + Burst(key, n - 1))
  }

  /** The first request under a key opens a counter, gives it its expiry, and is admitted. */
  lemma FirstAdmitted(limits: Limits, s: Cluster, key: string)
    requires limits.max >= 1 && limits.windowSec >= 1
    requires !Live(s.store, s.now, key) && s.pending == {}
    ensures var h := Hit(key, |BirthsOf(s, key)|, 1, s.now);
      && h == NextHit(s, key)
      && Enabled(Step(limits, s, Arrive(key, Delivered)), SendExpire(h, Delivered))
      && Step(limits, Step(limits, s, Arrive(key, Delivered)), SendExpire(h, Delivered)) ==
         s.(store := s.store[key := Entry(1, Some(ExpiryIn(s.now, limits.windowSec)))],
            births := s.births[key := BirthsOf(s, key) + [s.now]],
            hits := s.hits + {h}, completed := s.completed + {h}, admitted := s.admitted + {h})
  {
    var h := NextHit(s, key);
    var s1 := Step(limits, s, Arrive(key, Delivered));
    assert s1.pending == {h} && s1.pending - {h} == s.pending;
    assert s1.store == s.store[key := Entry(1, None)];
  }

  lemma WaveAdmits(limits: Limits, s: Cluster, key: string)
    requires limits.max >= 1 && limits.windowSec >= 1
    requires !Live(s.store, s.now, key) && s.pending == {}
    ensures var t := Execute(limits, s, Wave(s, key, limits.max));
      && t.now == s.now && t.pending == {} && BirthsOf(t, key) == BirthsOf(s, key) + [s.now]
      && key in t.store && t.store[key].expiry == Some(ExpiryIn(s.now, limits.windowSec))
      && t.admitted == s.admitted + Volley(key, |BirthsOf(s, key)|, 0, limits.max, s.now)
  {
    hide Step;
    var h := NextHit(s, key);
    var a, e := Arrive(key, Delivered), SendExpire(h, Delivered);
    FirstAdmitted(limits, s, key);
    ExecuteOne(limits, s, a, [e] + Burst(key, limits.max - 1));
    ExecuteOne(limits, Step(limits, s, a), e, Burst(key, limits.max - 1));
    BurstAdmits(limits, Step(limits, Step(limits, s, a), e), key, limits.max - 1);
    VolleyJoin(key, |BirthsOf(s, key)|, 0, limits.max, s.now);
  }

  /** The bound cannot be lowered for any limit or window: two waves one window apart are all let
      through, so this is no sliding window. */
  lemma BoundIsReached(limits: Limits, key: string) returns (events: seq<Event>)
    requires limits.max >= 1 && limits.windowSec >= 1
    ensures |AdmittedWithin(limits, Execute(limits, INITIAL, events), key, 0)| == 2 * limits.max
  {
    hide Wave;
    var first, tick := Wave(INITIAL, key, limits.max), Tick(limits.Window());
    var s1 := Execute(limits, INITIAL, first);
    WaveAdmits(limits, INITIAL, key);
    var s2 := Step(limits, s1, tick);
    var second := Wave(s2, key, limits.max);
    var s3 := Execute(limits, s2, second);
    WaveAdmits(limits, s2, key);
    events := first + ([tick] + second);
    ExecuteConcat(limits, INITIAL, first, [tick] + second);
    ExecuteOne(limits, s1, tick, second);
    TwoVolleys(limits, s3, key);
  }

  lemma TwoVolleys(limits: Limits, s: Cluster, key: string)
    requires s.admitted == Volley(key, 0, 0, limits.max, 0) + Volley(key, 1, 0, limits.max, limits.Window())
    ensures |AdmittedWithin(limits, s, key, 0)| == 2 * limits.max
  {
    var v, w := Volley(key, 0, 0, limits.max, 0), Volley(key, 1, 0, limits.max, limits.Window());
    VolleySize(key, 0, 0, limits.max, 0);
    VolleySize(key, 1, 0, limits.max, limits.Window());
    assert AdmittedWithin(limits, s, key, 0) == v + w;
    assert v !! w;
  }
}
