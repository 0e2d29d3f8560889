/** The token bucket with lazy refill, the exponential cooldown, and the limiter that combines them.
    Seconds are reals and every clock reading is the parameter `now`. */
module RateLimit {

  // ---------------------------------------------------------------- the bucket as a value

  datatype Bucket = Bucket(tokens: real, maxTokens: real, refillRate: real, lastRefill: real)

  predicate BucketOk(b: Bucket) {
    0.0 <= b.tokens <= b.maxTokens && 0.0 <= b.refillRate
  }

  function MinReal(x: real, y: real): real {
    if x > y then y else x
  }

  /** The tokens that flow in between two instants: elapsed seconds times the rate. */
  function Inflow(from: real, to: real, rate: real): real {
    (to - from) * rate
  }

  function Refilled(b: Bucket, now: real): Bucket {
    b.(tokens := MinReal(b.tokens + Inflow(b.lastRefill, now, b.refillRate), b.maxTokens), lastRefill := now)
  }

  /** Asking for `n` tokens: zero or fewer are always granted and touch nothing. */
  function Asked(b: Bucket, n: int, now: real): (Bucket, bool) {
    if n <= 0 then (b, true)
    else
      var r := Refilled(b, now);
      if r.tokens >= n as real then (r.(tokens := r.tokens - n as real), true) else (r, false)
  }

  /** A request for tokens at some instant. */
  datatype Ask = Ask(n: int, at: real)

  ghost predicate InOrder(asks: seq<Ask>, from: real) {
    asks == [] || (from <= asks[0].at && InOrder(asks[1..], asks[0].at))
  }

  /** The bucket after serving the asks, and the tokens granted in all. */
  function Served(b: Bucket, asks: seq<Ask>): (Bucket, int)
    decreases |asks|
  {
    if asks == [] then (b, 0)
    else
      var (b', ok) := Asked(b, asks[0].n, asks[0].at);
      var (rest, granted) := Served(b', asks[1..]);
      (rest, granted + if ok && asks[0].n > 0 then asks[0].n else 0)
  }

  lemma InflowNonNegative(from: real, to: real, rate: real)
    requires from <= to && 0.0 <= rate
    ensures Inflow(from, to, rate) >= 0.0
  {
  }

  lemma InflowAdds(a: real, b: real, c: real, rate: real)
    ensures Inflow(a, b, rate) + Inflow(b, c, rate) == Inflow(a, c, rate)
  {
  }

  lemma RefilledOk(b: Bucket, now: real)
    requires BucketOk(b) && b.lastRefill <= now
    ensures BucketOk(Refilled(b, now))
    ensures b.tokens <= Refilled(b, now).tokens <= b.tokens + Inflow(b.lastRefill, now, b.refillRate)
  {
    hide Inflow;
    InflowNonNegative(b.lastRefill, now, b.refillRate);
  }

  lemma InflowOfMinute(from: real, to: real, rate: real)
    requires to - from >= 60.0 && rate >= 0.0
    ensures Inflow(from, to, rate) >= 60.0 * rate
  {
    InflowAdds(from, from + 60.0, to, rate);
    InflowNonNegative(from + 60.0, to, rate);
  }

  /** A bucket left alone for a minute is full, and then grants a request exactly when it asks for no more than the
      RPM. */
  lemma IdleMinuteFills(b: Bucket, rpm: int, n: int, now: real)
    requires BucketOk(b) && rpm >= 0 && b.maxTokens == rpm as real && b.refillRate == rpm as real / 60.0
    requires now - b.lastRefill >= 60.0
    ensures Refilled(b, now).tokens == rpm as real
    ensures Asked(b, n, now).1 <==> n <= rpm
  {
    hide Inflow;
    InflowOfMinute(b.lastRefill, now, b.refillRate);
  }

  lemma RefilledFields(b: Bucket, now: real)
    ensures Refilled(b, now).lastRefill == now && Refilled(b, now).refillRate == b.refillRate
    ensures Refilled(b, now).maxTokens == b.maxTokens
  {
  }

  lemma EarlierStart(asks: seq<Ask>, from: real, later: real)
    requires from <= later && InOrder(asks, later)
    ensures InOrder(asks, from)
  {
  }

  /** Serving keeps 0 <= tokens <= maxTokens, and never hands out more than was there and flowed in. */
  lemma {:induction false} ServedWithinFlow(b: Bucket, asks: seq<Ask>, until: real)
    requires BucketOk(b) && InOrder(asks, b.lastRefill) && b.lastRefill <= until
    requires forall i | 0 <= i < |asks| :: asks[i].at <= until
    ensures BucketOk(Served(b, asks).0)
    ensures Served(b, asks).1 as real + Served(b, asks).0.tokens <= b.tokens + Inflow(b.lastRefill, until, b.refillRate)
    ensures Served(b, asks).1 >= 0
    decreases |asks|
  {
    hide Inflow, Refilled;
    if asks == [] {
      InflowNonNegative(b.lastRefill, until, b.refillRate);
    } else {
      var n, at := asks[0].n, asks[0].at;
      if n > 0 {
        var r := Refilled(b, at);
        RefilledOk(b, at);
        RefilledFields(b, at);
        InflowAdds(b.lastRefill, at, until, b.refillRate);
        ServedWithinFlow(Asked(b, n, at).0, asks[1..], until);
      } else {
        EarlierStart(asks[1..], b.lastRefill, at);
        ServedWithinFlow(b, asks[1..], until);
      }
    }
  }

  /** A request is granted exactly when it asks for no more than there is by now and than the bucket can hold. */
  lemma GrantedExactly(b: Bucket, n: int, now: real)
    requires BucketOk(b) && b.lastRefill <= now
    ensures Asked(b, n, now).1 <==>
      n <= 0 || (n as real <= b.tokens + (now - b.lastRefill) * b.refillRate && n as real <= b.maxTokens)
  {
  }

  /** What finds no room when the bucket is refilled. */
  function Overflow(b: Bucket, now: real): real {
    var there := b.tokens + (now - b.lastRefill) * b.refillRate;
    if there > b.maxTokens then there - b.maxTokens else 0.0
  }

  /** What found no room during a run of requests. */
  function Spilled(b: Bucket, asks: seq<Ask>): real
    decreases |asks|
  {
    if asks == [] then 0.0
    else
      var after := Spilled(Asked(b, asks[0].n, asks[0].at).0, asks[1..]);
      if asks[0].n <= 0 then after else Overflow(b, asks[0].at) + after
  }

  lemma AskedConserves(b: Bucket, n: int, at: real)
    requires n > 0
    ensures var (b', ok) := Asked(b, n, at);
      && b'.refillRate == b.refillRate && b'.maxTokens == b.maxTokens && b'.lastRefill == at
      && b'.tokens + (if ok then n as real else 0.0) + Overflow(b, at) ==
           b.tokens + Inflow(b.lastRefill, at, b.refillRate)
  {
  }

  lemma NoInflow(at: real, rate: real)
    ensures Inflow(at, at, rate) == 0.0
  {
  }

  lemma NothingAsked(b: Bucket, n: int, at: real)
    ensures n <= 0 ==> Asked(b, n, at) == (b, true)
  {
  }

  lemma {:induction false} RunConserves(b: Bucket, asks: seq<Ask>)
    ensures var (end, granted) := Served(b, asks);
      && end.tokens + granted as real + Spilled(b, asks) ==
           b.tokens + Inflow(b.lastRefill, end.lastRefill, b.refillRate)
      && end.refillRate == b.refillRate && end.maxTokens == b.maxTokens
    decreases |asks|
  {
    hide Asked, Overflow, Inflow;
    if asks == [] {
      NoInflow(b.lastRefill, b.refillRate);
    } else {
      var n, at := asks[0].n, asks[0].at;
      NothingAsked(b, n, at);
      var b' := Asked(b, n, at).0;
      RunConserves(b', asks[1..]);
      if n > 0 {
        AskedConserves(b, n, at);
        InflowAdds(b.lastRefill, at, Served(b', asks[1..]).0.lastRefill, b.refillRate);
      }
    }
  }

  /** Not a token is lost: what is left, what was granted and what spilled over add up to what was there and what flowed
      in until the bucket was last refilled. */
  lemma TokensConserved(b: Bucket, asks: seq<Ask>)
    ensures var (end, granted) := Served(b, asks);
      end.tokens + granted as real + Spilled(b, asks) == b.tokens + (end.lastRefill - b.lastRefill) * b.refillRate
  {
    RunConserves(b, asks);
    hide Served, Spilled;
  }

  lemma RefillTwice(b: Bucket, mid: real, now: real)
    requires BucketOk(b) && b.lastRefill <= mid <= now
    ensures Refilled(Refilled(b, mid), now) == Refilled(b, now)
  {
    hide Inflow;
    InflowAdds(b.lastRefill, mid, now, b.refillRate);
    InflowNonNegative(mid, now, b.refillRate);
  }

  /** Refilling at the start of the window can only help the bucket. */
  lemma {:induction false} RefillFirst(b: Bucket, asks: seq<Ask>, start: real)
    requires BucketOk(b) && b.lastRefill <= start && InOrder(asks, start)
    ensures Served(b, asks).1 <= Served(Refilled(b, start), asks).1
    decreases |asks|
  {
    hide Inflow, Refilled;
    if asks != [] {
      var n, at := asks[0].n, asks[0].at;
      if n <= 0 {
        EarlierStart(asks[1..], start, at);
        RefillFirst(b, asks[1..], start);
      } else {
        RefillTwice(b, start, at);
      }
    }
  }

  /** The window law: whatever the bucket held before, the tokens it grants for asks made within any
      window of `until - start` seconds total at most the RPM plus what flows in during the window. */
  lemma WindowBound(b: Bucket, asks: seq<Ask>, start: real, until: real, rpm: int)
    requires BucketOk(b) && rpm >= 0 && b.maxTokens == rpm as real && b.refillRate == rpm as real / 60.0
    requires b.lastRefill <= start <= until && InOrder(asks, start)
    requires forall i | 0 <= i < |asks| :: asks[i].at <= until
    ensures Served(b, asks).1 as real <= rpm as real + (until - start) * (rpm as real / 60.0)
  {
    hide Served, InOrder, Refilled;
    RefilledOk(b, start);
    RefilledFields(b, start);
    ServedWithinFlow(Refilled(b, start), asks, until);
    RefillFirst(b, asks, start);
  }

  function Resized(b: Bucket, rpm: int, now: real): Bucket {
    var tokens := if b.maxTokens > 0.0 then b.tokens / b.maxTokens * rpm as real else rpm as real;
    Bucket(MinReal(tokens, rpm as real), rpm as real, rpm as real / 60.0, now)
  }

  /** A new RPM keeps the bucket in bounds and as full, in proportion, as it was. */
  lemma ResizedOk(b: Bucket, rpm: int, now: real)
    requires BucketOk(b) && rpm > 0
    ensures BucketOk(Resized(b, rpm, now))
    ensures Resized(b, rpm, now).maxTokens == rpm as real && Resized(b, rpm, now).refillRate * 60.0 == rpm as real
    ensures b.maxTokens > 0.0 ==> Resized(b, rpm, now).tokens * b.maxTokens == b.tokens * rpm as real
    ensures b.maxTokens == 0.0 ==> Resized(b, rpm, now).tokens == rpm as real
  {
    if b.maxTokens > 0.0 {
      var share := b.tokens / b.maxTokens;
      assert 0.0 <= share <= 1.0;
      assert 0.0 <= share * rpm as real <= rpm as real;
      assert share * b.maxTokens == b.tokens;
      assert share * rpm as real * b.maxTokens == share * b.maxTokens * rpm as real;
    }
  }

  datatype BucketOp = Take(n: int, at: real) | SetRPM(rpm: int, at: real)

  /** The bucket after a run of requests and RPM changes. */
  function Evolved(b: Bucket, ops: seq<BucketOp>): Bucket {
    if ops == [] then b
    else
      var before := Evolved(b, ops[..|ops| - 1]);
      match ops[|ops| - 1]
      case Take(n, at) => Asked(before, n, at).0
      case SetRPM(rpm, at) => Resized(before, rpm, at)
  }

  lemma ResizedAt(b: Bucket, rpm: int, now: real)
    ensures Resized(b, rpm, now).lastRefill == now
  {
  }

  /** Over every run, RPM changes included, 0 <= tokens <= maxTokens. */
  lemma {:induction false} EvolvedOk(b: Bucket, ops: seq<BucketOp>)
    requires BucketOk(b)
    requires forall i | 0 <= i < |ops| :: b.lastRefill <= ops[i].at && (ops[i].SetRPM? ==> ops[i].rpm > 0)
    requires forall i, j | 0 <= i < j < |ops| :: ops[i].at <= ops[j].at
    ensures BucketOk(Evolved(b, ops))
    ensures Evolved(b, ops).lastRefill <= if ops == [] then b.lastRefill else ops[|ops| - 1].at
  {
    hide Refilled, Resized;
    if ops != [] {
      var init, last := ops[..|ops| - 1], ops[|ops| - 1];
      EvolvedOk(b, init);
      var before := Evolved(b, init);
      match last {
        case Take(n, at) =>
          RefilledOk(before, at);
          RefilledFields(before, at);
        case SetRPM(rpm, at) =>
          ResizedOk(before, rpm, at);
          ResizedAt(before, rpm, at);
      }
    }
  }

  // ---------------------------------------------------------------- cooldown and limiter as values

  const COOLDOWNS: seq<int> := [1, 2, 4, 8, 16, 32, 64, 128, 256, 512, 1024, 1800]

  datatype Limiter = Limiter(bucket: Bucket, level: int, resetAt: real, total: int, allowed: int, blocked: int)

  predicate LimiterOk(l: Limiter) {
    BucketOk(l.bucket) && -1 <= l.level < |COOLDOWNS|
  }

  predicate Cooling(level: int, resetAt: real, now: real) {
    level >= 0 && now < resetAt
  }

  function NextLevel(level: int): int {
    if level + 1 >= |COOLDOWNS| then |COOLDOWNS| - 1 else level + 1
  }

  /** One request for `n` tokens on an enabled limiter. */
  function Decided(l: Limiter, n: int, now: real): (Limiter, bool)
    requires LimiterOk(l)
  {
    var counted := l.(total := l.total + n);
    if Cooling(l.level, l.resetAt, now) then (counted.(blocked := l.blocked + n), false)
    else
      var (b, ok) := Asked(l.bucket, n, now);
      if ok then (counted.(bucket := b, allowed := l.allowed + n), true)
      else
        var level := NextLevel(l.level);
        (counted.(bucket := b, level := level, resetAt := now + COOLDOWNS[level] as real, blocked := l.blocked + n),
         false)
  }

  lemma DecidedOk(l: Limiter, n: int, now: real)
    requires LimiterOk(l) && l.bucket.lastRefill <= now
    ensures LimiterOk(Decided(l, n, now).0) && Decided(l, n, now).0.bucket.lastRefill <= now
  {
    hide Refilled;
    RefilledOk(l.bucket, now);
    RefilledFields(l.bucket, now);
  }

  /** The limiter after a list of requests, and the tokens granted. */
  function Limited(l: Limiter, asks: seq<Ask>): (Limiter, int)
    requires LimiterOk(l) && InOrder(asks, l.bucket.lastRefill)
    decreases |asks|
  {
    if asks == [] then (l, 0)
    else
      DecidedOk(l, asks[0].n, asks[0].at);
      EarlierStart(asks[1..], Decided(l, asks[0].n, asks[0].at).0.bucket.lastRefill, asks[0].at);
      var (l', ok) := Decided(l, asks[0].n, asks[0].at);
      var (rest, granted) := Limited(l', asks[1..]);
      (rest, granted + if ok && asks[0].n > 0 then asks[0].n else 0)
  }

  /** The requests that get past the cooldown to the bucket. */
  function Reaching(l: Limiter, asks: seq<Ask>): seq<Ask>
    requires LimiterOk(l) && InOrder(asks, l.bucket.lastRefill)
    decreases |asks|
  {
    if asks == [] then []
    else
      DecidedOk(l, asks[0].n, asks[0].at);
      EarlierStart(asks[1..], Decided(l, asks[0].n, asks[0].at).0.bucket.lastRefill, asks[0].at);
      (if Cooling(l.level, l.resetAt, asks[0].at) then [] else [asks[0]])
      + Reaching(Decided(l, asks[0].n, asks[0].at).0, asks[1..])
  }

  lemma {:induction false} LimiterIsBucket(l: Limiter, asks: seq<Ask>, from: real)
    requires LimiterOk(l) && l.bucket.lastRefill <= from && InOrder(asks, from) && InOrder(asks, l.bucket.lastRefill)
    ensures InOrder(Reaching(l, asks), from)
    ensures Limited(l, asks).1 == Served(l.bucket, Reaching(l, asks)).1
    ensures forall a | a in Reaching(l, asks) :: a in asks
    decreases |asks|
  {
    if asks != [] {
      hide Asked;
      var a := asks[0];
      DecidedOk(l, a.n, a.at);
      var l' := Decided(l, a.n, a.at).0;
      EarlierStart(asks[1..], l'.bucket.lastRefill, a.at);
      EarlierStart(asks[1..], from, a.at);
      LimiterIsBucket(l', asks[1..], a.at);
      EarlierStart(Reaching(l', asks[1..]), from, a.at);
      if !Cooling(l.level, l.resetAt, a.at) {
        assert ([a] + Reaching(l', asks[1..]))[1..] == Reaching(l', asks[1..]);
      } else {
        assert [] + Reaching(l', asks[1..]) == Reaching(l', asks[1..]);
      }
    }
  }

  /** The window law holds of the limiter too: the cooldown only withholds requests from the bucket. */
  lemma LimiterWindowBound(l: Limiter, asks: seq<Ask>, start: real, until: real, rpm: int)
    requires LimiterOk(l) && rpm >= 0 && l.bucket.maxTokens == rpm as real && l.bucket.refillRate == rpm as real / 60.0
    requires l.bucket.lastRefill <= start <= until && InOrder(asks, start) && InOrder(asks, l.bucket.lastRefill)
    requires forall i | 0 <= i < |asks| :: asks[i].at <= until
    ensures Limited(l, asks).1 as real <= rpm as real + (until - start) * (rpm as real / 60.0)
  {
    hide Limited, Reaching, Served;
    LimiterIsBucket(l, asks, start);
    var sub := Reaching(l, asks);
    forall i | 0 <= i < |sub|
      ensures sub[i].at <= until
    {
      assert sub[i] in asks;
    }
    WindowBound(l.bucket, sub, start, until, rpm);
  }

  function Wanted(asks: seq<Ask>): int {
    if asks == [] then 0 else asks[0].n + Wanted(asks[1..])
  }

  /** Every request is counted once, as allowed or as blocked. */
  lemma {:induction false} RequestsAccounted(l: Limiter, asks: seq<Ask>)
    requires LimiterOk(l) && InOrder(asks, l.bucket.lastRefill)
    ensures var l' := Limited(l, asks).0;
            && l'.total == l.total + Wanted(asks)
            && l'.total - l'.allowed - l'.blocked == l.total - l.allowed - l.blocked
    decreases |asks|
  {
    if asks != [] {
      hide Asked;
      DecidedOk(l, asks[0].n, asks[0].at);
      EarlierStart(asks[1..], Decided(l, asks[0].n, asks[0].at).0.bucket.lastRefill, asks[0].at);
      RequestsAccounted(Decided(l, asks[0].n, asks[0].at).0, asks[1..]);
    }
  }

  /** What counts as allowed is what was granted. */
  lemma {:induction false} AllowedIsGranted(l: Limiter, asks: seq<Ask>)
    requires LimiterOk(l) && InOrder(asks, l.bucket.lastRefill) && forall i | 0 <= i < |asks| :: asks[i].n >= 0
    ensures Limited(l, asks).0.allowed == l.allowed + Limited(l, asks).1
    decreases |asks|
  {
    if asks != [] {
      hide Asked;
      DecidedOk(l, asks[0].n, asks[0].at);
      EarlierStart(asks[1..], Decided(l, asks[0].n, asks[0].at).0.bucket.lastRefill, asks[0].at);
      AllowedIsGranted(Decided(l, asks[0].n, asks[0].at).0, asks[1..]);
    }
  }

  /** A granted request leaves the cooldown at its level; outside a cooldown the bucket alone decides. */
  lemma GrantLeavesCooldown(l: Limiter, n: int, now: real)
    requires LimiterOk(l)
    ensures Decided(l, n, now).1 <==> !(l.level >= 0 && now < l.resetAt) && Asked(l.bucket, n, now).1
    ensures Decided(l, n, now).1 ==> Decided(l, n, now).0.level == l.level && Decided(l, n, now).0.resetAt == l.resetAt
  {
    hide Asked;
  }

  /** While a cooldown lasts, everything is refused, and neither the bucket nor the cooldown moves. */
  lemma {:induction false} CooldownHolds(l: Limiter, asks: seq<Ask>)
    requires LimiterOk(l) && InOrder(asks, l.bucket.lastRefill) && l.level >= 0
    requires forall i | 0 <= i < |asks| :: asks[i].at < l.resetAt
    ensures Limited(l, asks).1 == 0
    ensures Limited(l, asks).0 == l.(total := l.total + Wanted(asks), blocked := l.blocked + Wanted(asks))
    decreases |asks|
  {
    if asks != [] {
      hide Asked;
      DecidedOk(l, asks[0].n, asks[0].at);
      EarlierStart(asks[1..], l.bucket.lastRefill, asks[0].at);
      CooldownHolds(Decided(l, asks[0].n, asks[0].at).0, asks[1..]);
    }
  }

  /** Each refusal by the bucket opens the next cooldown: twice as long as the last, until 30 minutes. */
  lemma CooldownDoubles(l: Limiter, n: int, now: real)
    requires LimiterOk(l) && !Cooling(l.level, l.resetAt, now) && !Asked(l.bucket, n, now).1
    ensures var l' := Decided(l, n, now).0;
            && l'.level == NextLevel(l.level) && Cooling(l'.level, l'.resetAt, now)
            && l'.resetAt - now == COOLDOWNS[l'.level] as real
            && COOLDOWNS[l'.level] ==
                 (if l.level == -1 then 1 else if l.level < 10 then 2 * COOLDOWNS[l.level] else 1800)
  {
    hide Asked;
  }

  // ---------------------------------------------------------------- the objects

  class TokenBucket {
    var tokens: real
    var maxTokens: real
    var refillRate: real
    var lastRefill: real

    function Value(): Bucket
      reads this
    {
      Bucket(tokens, maxTokens, refillRate, lastRefill)
    }

    constructor (rpm: int, now: real)
      requires rpm > 0
      ensures Value() == Bucket(rpm as real, rpm as real, rpm as real / 60.0, now) && BucketOk(Value())
    {
      tokens, maxTokens, refillRate, lastRefill := rpm as real, rpm as real, rpm as real / 60.0, now;
    }

    method AllowN(n: int, now: real) returns (ok: bool)
      requires BucketOk(Value()) && lastRefill <= now
      modifies this
      ensures (Value(), ok) == Asked(old(Value()), n, now)
      ensures BucketOk(Value()) && lastRefill <= now
    {
      hide Inflow;
      RefilledOk(Value(), now);
      if n <= 0 {
        return true;
      }
      tokens := tokens + Inflow(lastRefill, now, refillRate);
      if tokens > maxTokens {
        tokens := maxTokens;
      }
      lastRefill := now;
      if tokens >= n as real {
        tokens := tokens - n as real;
        return true;
      }
      return false;
    }

    method Allow(now: real) returns (ok: bool)
      requires BucketOk(Value()) && lastRefill <= now
      modifies this
      ensures (Value(), ok) == Asked(old(Value()), 1, now)
      ensures BucketOk(Value()) && lastRefill <= now
    {
      hide Inflow;
      RefilledOk(Value(), now);
      tokens := tokens + Inflow(lastRefill, now, refillRate);
      if tokens > maxTokens {
        tokens := maxTokens;
      }
      lastRefill := now;
      if tokens >= 1.0 {
        tokens := tokens - 1.0;
        return true;
      }
      return false;
    }

    /** Looking does not refill: it reports what a request would find. */
    method GetTokens(now: real) returns (t: real)
      requires BucketOk(Value()) && lastRefill <= now
      ensures t == Refilled(Value(), now).tokens && 0.0 <= t <= maxTokens
    {
      hide Inflow;
      RefilledOk(Value(), now);
      t := tokens + Inflow(lastRefill, now, refillRate);
      if t > maxTokens {
        t := maxTokens;
      }
    }

    method UpdateRPM(rpm: int, now: real)
      requires BucketOk(Value()) && rpm > 0
      modifies this
      ensures Value() == Resized(old(Value()), rpm, now) && BucketOk(Value())
    {
      ResizedOk(Value(), rpm, now);
      var oldMax := maxTokens;
      maxTokens := rpm as real;
      refillRate := rpm as real / 60.0;
      if oldMax > 0.0 {
        tokens := tokens / oldMax * rpm as real;
      } else {
        tokens := rpm as real;
      }
      if tokens > maxTokens {
        tokens := maxTokens;
      }
      lastRefill := now;
    }
  }

  class CooldownManager {
    var level: int
    var blockedAt: real
    var resetAt: real
    var lastBackoff: int

    predicate Valid()
      reads this
    {
      -1 <= level < |COOLDOWNS|
    }

    constructor ()
      ensures Valid() && level == -1 && resetAt == 0.0
    {
      level, blockedAt, resetAt, lastBackoff := -1, 0.0, 0.0, 0;
    }

    method ComputeCooldown() returns (duration: int, newLevel: int)
      requires Valid()
      ensures newLevel == NextLevel(level) && duration == COOLDOWNS[newLevel]
    {
      newLevel := level + 1;
      if newLevel >= |COOLDOWNS| {
        newLevel := |COOLDOWNS| - 1;
      }
      duration := COOLDOWNS[newLevel];
    }

    method EnterCooldown(now: real) returns (duration: int)
      requires Valid()
      modifies this
      ensures Valid() && level == NextLevel(old(level)) && duration == COOLDOWNS[level]
      ensures blockedAt == now && resetAt == now + duration as real && lastBackoff == duration
    {
      var newLevel;
      duration, newLevel := ComputeCooldown();
      level := newLevel;
      blockedAt := now;
      resetAt := now + duration as real;
      lastBackoff := duration;
    }

    method Reset()
      modifies this
      ensures Valid() && forall now :: !Cooling(level, resetAt, now)
    {
      level, blockedAt, resetAt, lastBackoff := -1, 0.0, 0.0, 0;
    }

    method GetRemainingCooldown(now: real) returns (d: real)
      requires Valid()
      ensures d > 0.0 <==> Cooling(level, resetAt, now)
      ensures d > 0.0 ==> now + d == resetAt
      ensures d >= 0.0
    {
      if level < 0 {
        return 0.0;
      }
      d := resetAt - now;
      if d < 0.0 {
        d := 0.0;
      }
    }
  }

  class LevelLimiter {
    var bucket: TokenBucket?
    const cooldown: CooldownManager
    var enabled: bool
    var totalRequests: int
    var allowedRequests: int
    var blockedRequests: int

    ghost predicate Valid()
      reads this, cooldown, bucket
    {
      cooldown.Valid() && enabled == (bucket != null) && (bucket != null ==> BucketOk(bucket.Value()))
    }

    function Value(): Limiter
      requires bucket != null
      reads this, cooldown, bucket
    {
      Limiter(bucket.Value(), cooldown.level, cooldown.resetAt, totalRequests, allowedRequests, blockedRequests)
    }

    constructor (rpm: int, now: real)
      ensures Valid() && fresh(cooldown) && (bucket != null ==> fresh(bucket)) && enabled == (rpm > 0)
      ensures rpm > 0 ==>
        Value() == Limiter(Bucket(rpm as real, rpm as real, rpm as real / 60.0, now), -1, 0.0, 0, 0, 0)
    {
      cooldown := new CooldownManager();
      enabled := rpm > 0;
      totalRequests, allowedRequests, blockedRequests := 0, 0, 0;
      bucket := null;
      if rpm > 0 {
        bucket := new TokenBucket(rpm, now);
      }
    }

    /** allowN, and allow for n = 1. A disabled limiter counts the request and lets it pass. */
    method AllowN(n: int, now: real) returns (ok: bool)
      requires Valid() && (bucket != null ==> bucket.lastRefill <= now)
      modifies this, cooldown, bucket
      ensures Valid() && bucket == old(bucket)
      ensures bucket != null ==>
        LimiterOk(old(Value())) && (Value(), ok) == Decided(old(Value()), n, now) && bucket.lastRefill <= now
      ensures bucket == null ==> ok && totalRequests == old(totalRequests) + n
      ensures bucket == null ==> allowedRequests == old(allowedRequests) && blockedRequests == old(blockedRequests)
    {
      hide Asked;
      totalRequests := totalRequests + n;
      if !enabled {
        return true;
      }
      if Cooling(cooldown.level, cooldown.resetAt, now) {
        blockedRequests := blockedRequests + n;
        return false;
      }
      ok := bucket.AllowN(n, now);
      if ok {
        allowedRequests := allowedRequests + n;
        return true;
      }
      var duration := cooldown.EnterCooldown(now);
      blockedRequests := blockedRequests + n;
    }

    method UpdateRPM(rpm: int, now: real)
      requires Valid()
      modifies this, bucket
      ensures Valid() && enabled == (rpm > 0) && (bucket == old(bucket) || bucket == null || fresh(bucket))
      ensures rpm > 0 && old(bucket) != null ==>
        bucket == old(bucket) && bucket.Value() == Resized(old(bucket.Value()), rpm, now)
      ensures rpm > 0 && old(bucket) == null ==>
        bucket.Value() == Bucket(rpm as real, rpm as real, rpm as real / 60.0, now)
      ensures cooldown.level == old(cooldown.level) && cooldown.resetAt == old(cooldown.resetAt)
    {
      hide Resized;
      enabled := rpm > 0;
      if enabled {
        if bucket == null {
          bucket := new TokenBucket(rpm, now);
        } else {
          bucket.UpdateRPM(rpm, now);
        }
      } else {
        bucket := null;
      }
    }
  }
}
