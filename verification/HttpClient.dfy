/** resilientFetch: retries with exponential backoff around an upstream that may answer, refuse or
    fail differently at every attempt. */
module HttpClient {
  import opened Outcomes

  /** A thrown error: what isTransientError looks at. A status code of 0 stands for none. */
  datatype Failure = Failure(name: string, code: string, statusCode: nat)

  /** What the n-th attempt meets: no response, or a response with a status and a body that parses or not. */
  datatype Attempt<V> = NoResponse(failure: Failure) | Response(status: nat, body: Result<V, Failure>)

  /** What resilientFetch throws: an ExternalServiceError for a status, an error of fetch or of the body,
      or the generic error of a call without any attempt. */
  datatype FetchError = ExternalService(status: nat) | Network(failure: Failure) | NoAttempt

  datatype Config<V> = Config(retries: int, baseDelay: real, fallback: Option<V>)

  predicate TransientStatus(status: nat) {
    status in {429, 500, 502, 503, 504}
  }

  /** isTransientError */
  predicate IsTransientError(f: Failure) {
    || f.name == "AbortError"
    || f.code in {"ECONNREFUSED", "ECONNRESET", "ETIMEDOUT", "UND_ERR_CONNECT_TIMEOUT"}
    || (f.statusCode != 0 && TransientStatus(f.statusCode))
  }

  /** response.ok */
  predicate Success(status: nat) {
    200 <= status <= 299
  }

  function Pow2(n: nat): (p: nat)
    ensures p >= 1
  {
    if n == 0 then 1 else 2 * Pow2(n - 1)
  }

  const MAX_DELAY: real := 10000.0

  /** getBackoffDelay, with Math.random() as a parameter. */
  function BackoffDelay(attempt: nat, baseDelay: real, random: real): real {
    var exponential, jitter := baseDelay * Pow2(attempt) as real, random * baseDelay;
    if exponential + jitter < MAX_DELAY then exponential + jitter else MAX_DELAY
  }

  /** What is done about one attempt. */
  datatype Verdict<V> =
    | Return(value: V)
    | Retry(error: FetchError)
    | GiveUp(error: FetchError)
    | Throw(error: FetchError)

  function Judge<V>(a: Attempt<V>, lastAttempt: bool): Verdict<V> {
    match a
    case Response(status, body) =>
      if !Success(status) then
        if !TransientStatus(status) then Throw(ExternalService(status))
        else if lastAttempt then GiveUp(ExternalService(status)) else Retry(ExternalService(status))
      else (
        match body
        case Ok(value) => Return(value)
        case Err(f) => JudgeFailure(f, lastAttempt))
    case NoResponse(f) => JudgeFailure(f, lastAttempt)
  }

  /** A failure that is no status error: on the last attempt it always leads to the fallback. */
  function JudgeFailure<V>(f: Failure, lastAttempt: bool): Verdict<V> {
    if lastAttempt then GiveUp(Network(f))
    else if IsTransientError(f) then Retry(Network(f))
    else Throw(Network(f))
  }

  datatype Report<V> = Report(result: Result<V, FetchError>, calls: nat, slept: real)

  function FallBack<V>(fallback: Option<V>, error: FetchError): Result<V, FetchError> {
    match fallback
    case Some(v) => Ok(v)
    case None => Err(error)
  }

  /** The rest of the run from an attempt on, by recursion on the retries left. */
  function FetchFrom<V>(cfg: Config<V>, world: nat -> Attempt<V>, random: nat -> real, attempt: nat): Report<V>
    decreases cfg.retries - attempt
  {
    if attempt > cfg.retries then Report(FallBack(cfg.fallback, NoAttempt), 0, 0.0)
    else
      match Judge(world(attempt), attempt >= cfg.retries)
      case Return(v) => Report(Ok(v), 1, 0.0)
      case Throw(e) => Report(Err(e), 1, 0.0)
      case GiveUp(e) => Report(FallBack(cfg.fallback, e), 1, 0.0)
      case Retry(e) =>
        var rest := FetchFrom(cfg, world, random, attempt + 1);
        Report(rest.result, rest.calls + 1, BackoffDelay(attempt, cfg.baseDelay, random(attempt)) + rest.slept)
  }

  /** resilientFetch. `calls` and `slept` record the fetches made and the milliseconds waited. */
  method ResilientFetch<V>(cfg: Config<V>, world: nat -> Attempt<V>, random: nat -> real) returns (r: Report<V>)
    ensures r == FetchFrom(cfg, world, random, 0)
  {
    var lastError: Option<FetchError> := None;
    var calls, slept := 0, 0.0;
    var attempt := 0;
    ghost var goal := FetchFrom(cfg, world, random, 0);
    while attempt <= cfg.retries
      invariant attempt == calls && (attempt > 0 ==> attempt <= cfg.retries) && (attempt == 0 ==> lastError.None?)
      invariant var rest := FetchFrom(cfg, world, random, attempt);
        goal == Report(rest.result, calls + rest.calls, slept + rest.slept)
      decreases cfg.retries - attempt
    {
      var response := world(attempt);
      calls := calls + 1;
      var thrown: FetchError;
      if response.Response? && !Success(response.status) {
        thrown := ExternalService(response.status);
        if !TransientStatus(response.status) {
          return Report(Err(thrown), calls, slept);
        }
        lastError := Some(thrown);
        if attempt < cfg.retries {
          slept := slept + BackoffDelay(attempt, cfg.baseDelay, random(attempt));
          attempt := attempt + 1;
          continue;
        }
      } else if response.Response? && response.body.Ok? {
        return Report(Ok(response.body.value), calls, slept);
      } else {
        var failure := if response.NoResponse? then response.failure else response.body.error;
        thrown := Network(failure);
        lastError := Some(thrown);
        if attempt < cfg.retries && IsTransientError(failure) {
          slept := slept + BackoffDelay(attempt, cfg.baseDelay, random(attempt));
          attempt := attempt + 1;
          continue;
        }
      }
      if attempt >= cfg.retries {
        break;
      }
      return Report(Err(thrown), calls, slept);
    }
    if cfg.fallback.Some? {
      return Report(Ok(cfg.fallback.value), calls, slept);
    }
    r := Report(Err(lastError.GetOr(NoAttempt)), calls, slept);
  }

  // ---- The run in closed form ----

  /** The attempt would be repeated, were it not the last one. */
  predicate Retryable<V>(a: Attempt<V>) {
    Judge(a, false).Retry?
  }

  /** Attempt k is where the run is decided: all before it are repeated, and it is not. */
  ghost predicate DecidesAt<V>(cfg: Config<V>, world: nat -> Attempt<V>, k: nat) {
    && k <= cfg.retries
    && (forall i: nat | i < k :: Retryable(world(i)))
    && (k == cfg.retries || !Retryable(world(k)))
  }

  function Outcome<V>(cfg: Config<V>, a: Attempt<V>, lastAttempt: bool): Result<V, FetchError>
    requires !Judge(a, lastAttempt).Retry?
  {
    match Judge(a, lastAttempt)
    case Return(v) => Ok(v)
    case Throw(e) => Err(e)
    case GiveUp(e) => FallBack(cfg.fallback, e)
  }

  /** The waiting before attempt n. */
  function TotalDelay<V>(cfg: Config<V>, random: nat -> real, n: nat): real {
    if n == 0 then 0.0 else TotalDelay(cfg, random, n - 1) + BackoffDelay(n - 1, cfg.baseDelay, random(n - 1))
  }

  lemma {:induction false} FindDecision<V>(cfg: Config<V>, world: nat -> Attempt<V>, from: nat) returns (k: nat)
    requires from <= cfg.retries && forall i: nat | i < from :: Retryable(world(i))
    ensures DecidesAt(cfg, world, k)
    decreases cfg.retries - from
  {
    k := from;
    if from < cfg.retries && Retryable(world(from)) {
      k := FindDecision(cfg, world, from + 1);
    }
  }

  lemma OneDecision<V>(cfg: Config<V>, world: nat -> Attempt<V>, j: nat, k: nat)
    requires DecidesAt(cfg, world, j) && DecidesAt(cfg, world, k)
    ensures j == k
  {
    assert j < k ==> Retryable(world(j));
    assert k < j ==> Retryable(world(k));
  }

  lemma {:induction false} FetchReaches<V>(cfg: Config<V>, world: nat -> Attempt<V>, random: nat -> real, k: nat,
      i: nat)
    requires DecidesAt(cfg, world, k) && i <= k
    ensures var report, rest := FetchFrom(cfg, world, random, 0), FetchFrom(cfg, world, random, i);
      report == Report(rest.result, i + rest.calls, TotalDelay(cfg, random, i) + rest.slept)
  {
    hide BackoffDelay, TransientStatus, IsTransientError, Success;
    if i == 0 {
    } else {
      FetchReaches(cfg, world, random, k, i - 1);
      assert Retryable(world(i - 1));
    }
  }

  /** A run with at least one attempt allowed is decided at exactly one attempt k, and then it makes
      k + 1 calls, waits before each repetition, and ends as attempt k says. */
  lemma RunInClosedForm<V>(cfg: Config<V>, world: nat -> Attempt<V>, random: nat -> real) returns (k: nat)
    requires cfg.retries >= 0
    ensures DecidesAt(cfg, world, k) && (forall j: nat | DecidesAt(cfg, world, j) :: j == k)
    ensures !Judge(world(k), k == cfg.retries).Retry?
    ensures FetchFrom(cfg, world, random, 0)
         == Report(Outcome(cfg, world(k), k == cfg.retries), k + 1, TotalDelay(cfg, random, k))
  {
    hide BackoffDelay, TransientStatus, IsTransientError, Success;
    k := FindDecision(cfg, world, 0);
    forall j: nat | DecidesAt(cfg, world, j) {
      OneDecision(cfg, world, j, k);
    }
    FetchReaches(cfg, world, random, k, k);
  }

  /** No run makes more than retries + 1 calls; with negative retries there is none. */
  lemma CallsBounded<V>(cfg: Config<V>, world: nat -> Attempt<V>, random: nat -> real)
    ensures FetchFrom(cfg, world, random, 0).calls <= if cfg.retries < 0 then 0 else cfg.retries + 1
  {
    if cfg.retries >= 0 {
      var k := RunInClosedForm(cfg, world, random);
    }
  }

  /** A permanent status is thrown as soon as it is met, whatever fallback there is. */
  lemma PermanentStatusIsThrown<V>(cfg: Config<V>, world: nat -> Attempt<V>, random: nat -> real, k: nat)
    requires k <= cfg.retries && forall i: nat | i < k :: Retryable(world(i))
    requires world(k).Response? && !Success(world(k).status) && !TransientStatus(world(k).status)
    ensures FetchFrom(cfg, world, random, 0) ==
            Report(Err(ExternalService(world(k).status)), k + 1, TotalDelay(cfg, random, k))
  {
    var k' := RunInClosedForm(cfg, world, random);
    assert DecidesAt(cfg, world, k);
  }

  /** Failures that stay transient up to the last attempt use up all attempts; unless that last one
      succeeds or meets a permanent status, the run ends in the fallback or the last error. */
  lemma TransientToTheEnd<V>(cfg: Config<V>, world: nat -> Attempt<V>, random: nat -> real)
    requires cfg.retries >= 0 && forall i: nat | i < cfg.retries :: Retryable(world(i))
    requires Judge(world(cfg.retries), true).GiveUp?
    ensures var report := FetchFrom(cfg, world, random, 0);
      report.calls == cfg.retries + 1
      && report.result == FallBack(cfg.fallback, Judge(world(cfg.retries), true).error)
  {
    var k := RunInClosedForm(cfg, world, random);
    assert DecidesAt(cfg, world, cfg.retries);
  }

  /** All attempts were used up and the last did not end in a permanent status. */
  ghost predicate Exhausted<V>(cfg: Config<V>, world: nat -> Attempt<V>) {
    cfg.retries < 0 || (DecidesAt(cfg, world, cfg.retries) && Judge(world(cfg.retries), true).GiveUp?)
  }

  /** A fallback changes a failing run exactly when it was exhausted. In particular an error that is
      neither transient nor a status is thrown on every attempt but the last, where it is replaced. */
  lemma FallbackIffExhausted<V>(cfg: Config<V>, world: nat -> Attempt<V>, random: nat -> real, v: V)
    requires cfg.fallback == None && FetchFrom(cfg, world, random, 0).result.Err?
    ensures var with := FetchFrom(cfg.(fallback := Some(v)), world, random, 0);
      if Exhausted(cfg, world) then with == FetchFrom(cfg, world, random, 0).(result := Ok(v))
      else with == FetchFrom(cfg, world, random, 0)
  {
    hide BackoffDelay, TransientStatus, IsTransientError, Success;
    if cfg.retries >= 0 {
      var cfg' := cfg.(fallback := Some(v));
      var k := RunInClosedForm(cfg, world, random);
      var k' := RunInClosedForm(cfg', world, random);
      assert DecidesAt(cfg', world, k);
      SameDelay(cfg, cfg', random, k);
    }
  }

  lemma {:induction false} SameDelay<V>(cfg: Config<V>, other: Config<V>, random: nat -> real, n: nat)
    requires cfg.baseDelay == other.baseDelay
    ensures TotalDelay(cfg, random, n) == TotalDelay(other, random, n)
  {
    if n == 0 {
    } else {
      SameDelay(cfg, other, random, n - 1);
    }
  }

  // ---- How long it waits ----

  lemma Scaled(base: real, x: real, y: real)
    requires base >= 0.0 && x <= y
    ensures base * x <= base * y
  {
  }

  lemma Distributes(base: real, x: real, y: real)
    ensures base * (x + y) == base * x + base * y
  {
  }

  lemma DelayBounds(attempt: nat, baseDelay: real, random: real)
    requires baseDelay >= 0.0 && 0.0 <= random < 1.0
    ensures 0.0 <= BackoffDelay(attempt, baseDelay, random) <= MAX_DELAY
    ensures BackoffDelay(attempt, baseDelay, random) <= baseDelay * (Pow2(attempt) as real + 1.0)
  {
    hide Pow2;
    var p := Pow2(attempt) as real;
    Scaled(baseDelay, 0.0, p);
    Scaled(baseDelay, 0.0, random);
    Scaled(baseDelay, random, 1.0);
    Distributes(baseDelay, p, 1.0);
    assert baseDelay * 1.0 == baseDelay && baseDelay * 0.0 == 0.0;
    assert random * baseDelay == baseDelay * random;
  }

  lemma {:induction false} DelaysBound<V>(cfg: Config<V>, random: nat -> real, n: nat)
    requires cfg.baseDelay >= 0.0 && forall i: nat :: 0.0 <= random(i) < 1.0
    ensures 0.0 <= TotalDelay(cfg, random, n) <= n as real * MAX_DELAY
    ensures TotalDelay(cfg, random, n) <= cfg.baseDelay * (Pow2(n) as real - 1.0 + n as real)
  {
    hide BackoffDelay;
    if n == 0 {
      assert cfg.baseDelay * 0.0 == 0.0;
    } else {
      DelaysBound(cfg, random, n - 1);
      DelayBounds(n - 1, cfg.baseDelay, random(n - 1));
      var p, m := Pow2(n - 1) as real, (n - 1) as real;
      assert Pow2(n) as real == 2.0 * p;
      assert cfg.baseDelay * (2.0 * p - 1.0 + m + 1.0) == cfg.baseDelay * (p - 1.0 + m) + cfg.baseDelay * (p + 1.0);
    }
  }

  lemma {:induction false} Pow2Grows(a: nat, b: nat)
    requires a <= b
    ensures Pow2(a) <= Pow2(b)
    decreases b
  {
    if a == b {
    } else {
      Pow2Grows(a, b - 1);
    }
  }

  lemma BoundsGrow(base: real, k: nat, n: nat)
    requires base >= 0.0 && k <= n
    ensures k as real * MAX_DELAY <= n as real * MAX_DELAY
    ensures base * (Pow2(k) as real - 1.0 + k as real) <= base * (Pow2(n) as real - 1.0 + n as real)
  {
    hide Pow2;
    Pow2Grows(k, n);
    Scaled(base, Pow2(k) as real - 1.0 + k as real, Pow2(n) as real - 1.0 + n as real);
  }

  function WaitBound(base: real, n: nat): real {
    base * (Pow2(n) as real - 1.0 + n as real)
  }

  lemma WaitsWithin<V>(cfg: Config<V>, random: nat -> real, k: nat, n: nat)
    requires cfg.baseDelay >= 0.0 && (forall i: nat :: 0.0 <= random(i) < 1.0) && k <= n
    ensures 0.0 <= TotalDelay(cfg, random, k) <= n as real * MAX_DELAY
    ensures TotalDelay(cfg, random, k) <= WaitBound(cfg.baseDelay, n)
  {
    hide BackoffDelay, TotalDelay, Pow2;
    DelaysBound(cfg, random, k);
    BoundsGrow(cfg.baseDelay, k, n);
  }

  /** With n retries a run waits at most min(n * 10000, base * (2^n - 1 + n)) milliseconds. */
  lemma BackoffBounded<V>(cfg: Config<V>, world: nat -> Attempt<V>, random: nat -> real)
    requires cfg.baseDelay >= 0.0 && forall i: nat :: 0.0 <= random(i) < 1.0
    ensures var n: nat := if cfg.retries < 0 then 0 else cfg.retries;
      var slept := FetchFrom(cfg, world, random, 0).slept;
      0.0 <= slept <= n as real * MAX_DELAY && slept <= WaitBound(cfg.baseDelay, n)
  {
    hide Judge, BackoffDelay, TotalDelay, Pow2, WaitBound;
    if cfg.retries >= 0 {
      var k := RunInClosedForm(cfg, world, random);
      WaitsWithin(cfg, random, k, cfg.retries);
    } else {
      WaitsWithin(cfg, random, 0, 0);
      NoDelay(cfg, random);
    }
  }

  lemma NoDelay<V>(cfg: Config<V>, random: nat -> real)
    ensures TotalDelay(cfg, random, 0) == 0.0
  {
  }

  lemma DelayAtLeast(attempt: nat, baseDelay: real, random: real)
    requires baseDelay >= 0.0 && 0.0 <= random < 1.0
    ensures BackoffDelay(attempt, baseDelay, random) >= MAX_DELAY
            || BackoffDelay(attempt, baseDelay, random) >= baseDelay * Pow2(attempt) as real
  {
    hide Pow2;
    Scaled(baseDelay, 0.0, random);
    assert random * baseDelay == baseDelay * random && baseDelay * 0.0 == 0.0;
  }

  lemma {:induction false} DelaysAtLeast<V>(cfg: Config<V>, random: nat -> real, n: nat)
    requires cfg.baseDelay >= 0.0 && forall i: nat :: 0.0 <= random(i) < 1.0
    ensures TotalDelay(cfg, random, n) >= MAX_DELAY
            || TotalDelay(cfg, random, n) >= cfg.baseDelay * (Pow2(n) as real - 1.0)
  {
    hide BackoffDelay;
    if n == 0 {
      assert cfg.baseDelay * 0.0 == 0.0;
    } else {
      DelaysAtLeast(cfg, random, n - 1);
      DelaysBound(cfg, random, n - 1);
      DelayAtLeast(n - 1, cfg.baseDelay, random(n - 1));
      DelayBounds(n - 1, cfg.baseDelay, random(n - 1));
      var p := Pow2(n - 1) as real;
      assert Pow2(n) as real - 1.0 == (p - 1.0) + p;
      Distributes(cfg.baseDelay, p - 1.0, p);
    }
  }

  /** A run that makes k + 1 calls waits at least min(10000, base * (2^k - 1)) milliseconds. */
  lemma BackoffAtLeast<V>(cfg: Config<V>, world: nat -> Attempt<V>, random: nat -> real)
    requires cfg.baseDelay >= 0.0 && (forall i: nat :: 0.0 <= random(i) < 1.0) && cfg.retries >= 0
    ensures var report := FetchFrom(cfg, world, random, 0);
      && report.calls >= 1
      && (report.slept >= MAX_DELAY || report.slept >= cfg.baseDelay * (Pow2(report.calls - 1) as real - 1.0))
  {
    hide Judge, BackoffDelay, TotalDelay, Pow2;
    var k := RunInClosedForm(cfg, world, random);
    DelaysAtLeast(cfg, random, k);
  }

  // ---- How a run ends, told by what its attempts met ----

  ghost predicate Again(status: nat) {
    status == 429 || status == 500 || 502 <= status <= 504
  }

  /** The failure of an attempt that is not a bad status, if it is one. */
  function FailureOf<V>(a: Attempt<V>): Option<Failure> {
    match a
    case NoResponse(f) => Some(f)
    case Response(status, body) => if 200 <= status < 300 && body.Err? then Some(body.error) else None
  }

  /** What an attempt is worth repeating for. */
  ghost predicate WorthRepeating<V>(a: Attempt<V>) {
    || (a.Response? && Again(a.status))
    || (FailureOf(a).Some? &&
        var f := FailureOf(a).value;
        || f.name == "AbortError" || f.code == "ECONNREFUSED" || f.code == "ECONNRESET" || f.code == "ETIMEDOUT"
        || f.code == "UND_ERR_CONNECT_TIMEOUT" || Again(f.statusCode))
  }

  lemma RetryableIff<V>(a: Attempt<V>)
    ensures Retryable(a) <==> WorthRepeating(a)
  {
    assert a.Response? && a.status < 300 ==> !Again(a.status);
  }

  /** A run ends with the first attempt that is not worth repeating, or with the last one. A body is returned;
      a bad status is thrown at once if permanent; any other failure is thrown at once before the last attempt;
      and what is left on the last attempt gives the fallback if there is one. */
  lemma EndsAs<V>(cfg: Config<V>, world: nat -> Attempt<V>, random: nat -> real) returns (k: nat)
    requires cfg.retries >= 0
    ensures k <= cfg.retries && (forall i: nat | i < k :: WorthRepeating(world(i)))
    ensures k == cfg.retries || !WorthRepeating(world(k))
    ensures FetchFrom(cfg, world, random, 0).calls == k + 1
    ensures var a, result := world(k), FetchFrom(cfg, world, random, 0).result;
      if a.Response? && 200 <= a.status < 300 && a.body.Ok? then result == Ok(a.body.value)
      else
        var error := if FailureOf(a).Some? then Network(FailureOf(a).value) else ExternalService(a.status);
        result == if k == cfg.retries && cfg.fallback.Some? && (FailureOf(a).Some? || Again(a.status))
                  then Ok(cfg.fallback.value) else Err(error)
  {
    hide BackoffDelay, WorthRepeating;
    k := RunInClosedForm(cfg, world, random);
    forall i: nat | i <= k {
      RetryableIff(world(i));
    }
  }

  function JitterSum(random: nat -> real, n: nat): real {
    if n == 0 then 0.0 else JitterSum(random, n - 1) + random(n - 1)
  }

  /** Base times 2^n - 1 and the random parts. */
  function Waits(base: real, n: nat, jitter: real): real {
    base * (Pow2(n) as real - 1.0 + jitter)
  }

  lemma WaitsStep(base: real, n: nat, jitter: real, random: real)
    requires n >= 1
    ensures Waits(base, n - 1, jitter) + base * (Pow2(n - 1) as real + random) == Waits(base, n, jitter + random)
  {
    var p := Pow2(n - 1) as real;
    assert Pow2(n) as real == 2.0 * p;
    Distributes(base, p - 1.0 + jitter, p + random);
  }

  lemma NoWaits(base: real)
    ensures Waits(base, 0, 0.0) == 0.0
  {
    assert base * 0.0 == 0.0;
  }

  lemma {:induction false} DelaysExact<V>(cfg: Config<V>, random: nat -> real, n: nat)
    requires cfg.baseDelay >= 0.0 && forall i: nat :: 0.0 <= random(i) < 1.0
    requires n >= 1 ==> cfg.baseDelay * (Pow2(n - 1) as real + 1.0) <= MAX_DELAY
    ensures TotalDelay(cfg, random, n) == Waits(cfg.baseDelay, n, JitterSum(random, n))
  {
    hide BackoffDelay, Waits, Pow2;
    if n == 0 {
      NoWaits(cfg.baseDelay);
    } else {
      EarlierFits(cfg.baseDelay, n);
      DelaysExact(cfg, random, n - 1);
      DelayExact(n - 1, cfg.baseDelay, random(n - 1));
      WaitsStep(cfg.baseDelay, n, JitterSum(random, n - 1), random(n - 1));
    }
  }

  lemma EarlierFits(base: real, n: nat)
    requires base >= 0.0 && n >= 1 && base * (Pow2(n - 1) as real + 1.0) <= MAX_DELAY
    ensures n >= 2 ==> base * (Pow2(n - 2) as real + 1.0) <= MAX_DELAY
  {
    if n >= 2 {
      hide Pow2;
      Pow2Grows(n - 2, n - 1);
      Scaled(base, Pow2(n - 2) as real + 1.0, Pow2(n - 1) as real + 1.0);
    }
  }

  lemma DelayExact(attempt: nat, baseDelay: real, random: real)
    requires baseDelay >= 0.0 && 0.0 <= random < 1.0
    requires baseDelay * (Pow2(attempt) as real + 1.0) <= MAX_DELAY
    ensures BackoffDelay(attempt, baseDelay, random) == baseDelay * (Pow2(attempt) as real + random)
  {
    hide Pow2;
    var p := Pow2(attempt) as real;
    Distributes(baseDelay, p, random);
    Scaled(baseDelay, p + random, p + 1.0);
    assert random * baseDelay == baseDelay * random;
  }

  /** While no single wait can reach the cap, a run of k + 1 calls waits exactly base times 2^k - 1 and the
      random parts drawn. */
  lemma BackoffExact<V>(cfg: Config<V>, world: nat -> Attempt<V>, random: nat -> real)
    requires cfg.baseDelay >= 0.0 && (forall i: nat :: 0.0 <= random(i) < 1.0) && cfg.retries >= 0
    ensures var report := FetchFrom(cfg, world, random, 0);
      && report.calls >= 1
      && var k := report.calls - 1;
      (k >= 1 ==> cfg.baseDelay * (Pow2(k - 1) as real + 1.0) <= MAX_DELAY) ==>
        report.slept == Waits(cfg.baseDelay, k, JitterSum(random, k))
  {
    hide Judge, BackoffDelay, TotalDelay, Pow2, Waits;
    var k := RunInClosedForm(cfg, world, random);
    if k >= 1 ==> cfg.baseDelay * (Pow2(k - 1) as real + 1.0) <= MAX_DELAY {
      DelaysExact(cfg, random, k);
    }
  }
}
