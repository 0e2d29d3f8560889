/** The scheduling state of one upstream account: the health score, the tier, the two
    notions of availability, and the signals that move them. Every clock reading of the
    original is the parameter `now`; times are nanoseconds and 0 is Go's zero time. */
module Accounts {
  import opened Wrappers

  type Instant = nat

  const SECOND: int := 1_000_000_000
  const MINUTE: int := 60 * SECOND
  const HOUR: int := 60 * MINUTE
  const DAY: int := 24 * HOUR
  const WINDOW: nat := 20

  datatype Status = Ready | Cooldown | Error

  /** `Unset` is the empty tier an account has before its first scoring. */
  datatype Tier = Unset | Healthy | Warm | Risky | Banned

  /** A plan name up to the distinctions that scoring makes. */
  datatype Plan = Free | Plus | Pro | Team | OtherPlan

  datatype Reason = NoReason | RateLimited | Unauthorized | OtherReason

  datatype FailureKind =
    | UnauthorizedFailure | TimeoutFailure | ServerFailure | TransportFailure | ClientFailure | OtherFailure

  datatype Standing =
    Standing(status: Status, hasToken: bool, plan: Plan, cooldownUntil: Instant, cooldownReason: Reason)

  datatype Usage = Usage(pct7d: real, valid7d: bool, pct5h: real, valid5h: bool, reset5hAt: Instant)

  /** The ring buffer of the last request results: 1 for a success, 0 for a failure. */
  datatype Ring = Ring(results: seq<nat>, idx: nat, cnt: nat)

  datatype Streaks = Streaks(latencyEwma: real, success: int, failure: int, ring: Ring)

  /** When each kind of signal was last seen. */
  datatype Stamps = Stamps(
    success: Instant,
    failure: Instant,
    unauthorized: Instant,
    rateLimited: Instant,
    timeout: Instant,
    serverError: Instant
  )

  /** What scoring reads: the standing, usage data, recent history and configuration of an account. */
  datatype Signals = Signals(
    standing: Standing,
    usage: Usage,
    streaks: Streaks,
    stamps: Stamps,
    scoreBiasOverride: Option<int>,
    baseConcurrencyOverride: Option<int>,
    totalRequests: int
  )

  /** What scoring writes. */
  datatype Scoring = Scoring(
    healthTier: Tier,
    schedulerScore: real,
    dispatchScore: real,
    scoreBiasEffective: int,
    baseConcurrencyEffective: int,
    dynamicConcurrencyLimit: int
  )

  datatype View = View(sig: Signals, sc: Scoring)

  /** The ring has twenty 0/1 marks and its write position is inside it. */
  predicate RingOk(r: Ring) {
    && |r.results| == WINDOW
    && r.idx < WINDOW
    && r.cnt <= WINDOW
    && (r.cnt < WINDOW ==> r.idx == r.cnt)
    && forall i | 0 <= i < WINDOW :: r.results[i] <= 1
  }

  // ---------------------------------------------------------------- limits

  function ConcurrencyLimitForTier(baseLimit: int, tier: Tier): (limit: int)
    ensures 0 <= limit <= (if baseLimit <= 0 then 1 else baseLimit)
    ensures limit == 0 <==> tier == Banned
  {
    var base := if baseLimit <= 0 then 1 else baseLimit;
    match tier
    case Healthy => base
    case Warm => if base / 2 < 1 then 1 else base / 2
    case Risky => 1
    case Banned => 0
    case Unset => if base >= 2 then 2 else 1
  }

  function EffectiveBaseConcurrency(s: Signals, storeBaseLimit: int): int {
    if s.baseConcurrencyOverride.Some? && s.baseConcurrencyOverride.value > 0 then s.baseConcurrencyOverride.value
    else if storeBaseLimit <= 0 then 1
    else storeBaseLimit
  }

  function TierRank(tier: Tier): nat {
    match tier
    case Healthy => 3
    case Warm => 2
    case Risky => 1
    case Banned => 0
    case Unset => 0
  }

  function CurrentTier(v: View): Tier {
    if v.sc.healthTier != Unset then v.sc.healthTier else if v.sig.standing.hasToken then Healthy else Warm
  }

  // ---------------------------------------------------------------- usage windows

  predicate PremiumPlan(p: Plan) {
    p == Plus || p == Pro || p == Team
  }

  predicate PremiumLimited(s: Signals, now: Instant) {
    PremiumPlan(s.standing.plan) && s.usage.valid5h && s.usage.pct5h >= 100.0 && s.usage.reset5hAt != 0
      && s.usage.reset5hAt > now
  }

  predicate UsageExhausted(s: Signals) {
    s.usage.valid7d && s.standing.plan == Free && s.usage.pct7d >= 110.0
  }

  predicate CoolingDown(s: Signals, now: Instant) {
    s.standing.status == Cooldown && now < s.standing.cooldownUntil
  }

  predicate CooldownSuppressed(s: Signals, now: Instant) {
    s.standing.status == Cooldown && s.standing.cooldownReason == RateLimited && PremiumLimited(s, now)
  }

  // ---------------------------------------------------------------- score

  function LinearDecay(base: real, elapsed: int, window: int): real {
    if elapsed >= window || window <= 0 then 0.0
    else base * (1.0 - elapsed as real / window as real)
  }

  function Clamp(x: int, lo: int, hi: int): int {
    if x < lo then lo else if x > hi then hi else x
  }

  function Sum(s: seq<nat>): nat {
    if s == [] then 0 else s[0] + Sum(s[1..])
  }

  function RecentSuccessRate(r: Ring): real
    requires r.cnt <= |r.results|
  {
    if r.cnt == 0 then 1.0 else Sum(r.results[..r.cnt]) as real / r.cnt as real
  }

  function DecaySince(at: Instant, base: real, window: int, now: Instant): real {
    if at == 0 then 0.0 else LinearDecay(base, now - at, window)
  }

  datatype Breakdown = Breakdown(
    unauthorizedPenalty: real,
    rateLimitPenalty: real,
    timeoutPenalty: real,
    serverPenalty: real,
    failurePenalty: real,
    successBonus: real,
    provenBonus: real,
    usagePenalty7d: real,
    latencyPenalty: real,
    successRatePenalty: real
  )

  function SuccessRatePenalty(r: Ring): real
    requires RingOk(r)
  {
    if r.cnt < 5 then 0.0
    else if RecentSuccessRate(r) < 0.5 then 15.0
    else if RecentSuccessRate(r) < 0.75 then 8.0
    else 0.0
  }

  function UsagePenalty7d(s: Signals): real {
    if !s.usage.valid7d || s.standing.plan != Free then 0.0
    else if s.usage.pct7d >= 110.0 then 50.0
    else if s.usage.pct7d >= 100.0 then 40.0
    else if s.usage.pct7d >= 95.0 then 30.0
    else if s.usage.pct7d >= 90.0 then 25.0
    else if s.usage.pct7d >= 85.0 then 18.0
    else if s.usage.pct7d >= 70.0 then 8.0
    else 0.0
  }

  function LatencyPenalty(s: Signals): real {
    if s.streaks.latencyEwma >= 20000.0 then 15.0
    else if s.streaks.latencyEwma >= 10000.0 then 8.0
    else if s.streaks.latencyEwma >= 5000.0 then 4.0
    else 0.0
  }

  function SchedulerBreakdown(s: Signals, now: Instant): Breakdown
    requires RingOk(s.streaks.ring)
  {
    var limited := PremiumLimited(s, now);
    Breakdown(
      DecaySince(s.stamps.unauthorized, 50.0, DAY, now),
      DecaySince(s.stamps.rateLimited, 22.0, HOUR, now),
      DecaySince(s.stamps.timeout, 18.0, 15 * MINUTE, now),
      DecaySince(s.stamps.serverError, 12.0, 15 * MINUTE, now),
      Clamp(s.streaks.failure * 6, 0, 24) as real,
      if limited then 0.0 else Clamp(s.streaks.success * 2, 0, 12) as real,
      if !limited && s.totalRequests > 10 then 20.0 else 0.0,
      UsagePenalty7d(s),
      LatencyPenalty(s),
      SuccessRatePenalty(s.streaks.ring))
  }

  function ScoreOf(b: Breakdown): real {
    100.0 - b.unauthorizedPenalty - b.rateLimitPenalty - b.timeoutPenalty - b.serverPenalty
    - b.failurePenalty - b.usagePenalty7d - b.latencyPenalty - b.successRatePenalty
    + b.successBonus + b.provenBonus
  }

  function Score(s: Signals, now: Instant): real
    requires RingOk(s.streaks.ring)
  {
    ScoreOf(SchedulerBreakdown(s, now))
  }

  /** The tier that scoring assigns to an account whose tier was `was`: score thresholds first,
      then the caps in the order in which they are applied. */
  function TierFor(s: Signals, was: Tier, score: real, now: Instant): Tier {
    var t0 := if score < 60.0 then Risky else if score < 85.0 then Warm else Healthy;
    var t1 := if s.stamps.failure > s.stamps.success && s.stamps.failure != 0 && t0 == Healthy then Warm else t0;
    var t2 := if s.stamps.unauthorized != 0 && now - s.stamps.unauthorized < DAY && t1 == Healthy then Warm else t1;
    var t3 := if !s.usage.valid7d || s.standing.plan != Free then t2
              else if s.usage.pct7d >= 90.0 then Risky
              else if s.usage.pct7d >= 85.0 && t2 == Healthy then Warm
              else t2;
    if was == Banned then Banned else if PremiumLimited(s, now) then Risky else t3
  }

  predicate DispatchBonusEligible(v: View, now: Instant, tier: Tier) {
    && (tier == Healthy || tier == Warm)
    && v.sig.standing.status != Error
    && !CoolingDown(v.sig, now)
    && CurrentTier(v) != Banned
    && !UsageExhausted(v.sig)
    && v.sig.standing.hasToken
  }

  function DefaultScoreBias(p: Plan): int {
    match p
    case Team => 100
    case Pro => 50
    case Plus => 50
    case _ => 0
  }

  function EffectiveScoreBias(v: View, now: Instant, tier: Tier): int {
    if !DispatchBonusEligible(v, now, tier) then 0
    else if v.sig.scoreBiasOverride.Some? then v.sig.scoreBiasOverride.value
    else DefaultScoreBias(v.sig.standing.plan)
  }

  lemma ProductBelow(x: real, y: real)
    requires 0.0 <= x < 1.0 && 0.0 <= y <= 1.0
    ensures 0.0 <= 25.0 * x * y < 25.0
    ensures x == 0.0 ==> 25.0 * x * y == 0.0
  {
    assert x * y <= x;
  }

  /** The bonus for spending 5h quota that is about to be reset; never negative, always below 25. */
  function UrgencyBonus(s: Signals, was: Tier, now: Instant): (bonus: real)
    ensures 0.0 <= bonus < 25.0
    ensures bonus > 0.0 ==>
      PremiumPlan(s.standing.plan) && now < s.usage.reset5hAt < now + 4 * HOUR && s.usage.pct5h < 95.0
  {
    var remaining := s.usage.reset5hAt - now;
    var quota := 100.0 - s.usage.pct5h;
    if !PremiumPlan(s.standing.plan) || !s.usage.valid5h || s.usage.reset5hAt == 0 then 0.0
    else if s.usage.pct5h >= 100.0 || PremiumLimited(s, now) then 0.0
    else if !s.standing.hasToken || s.standing.status == Error || was == Banned then 0.0
    else if CoolingDown(s, now) || UsageExhausted(s) then 0.0
    else if remaining <= 0 || remaining > 4 * HOUR || quota <= 5.0 then 0.0
    else
      var timeFactor := 1.0 - remaining as real / (4 * HOUR) as real;
      var quotaFactor := if quota / 50.0 > 1.0 then 1.0 else if quota / 50.0 < 0.0 then 0.0 else quota / 50.0;
      ProductBelow(timeFactor, quotaFactor);
      25.0 * timeFactor * quotaFactor
  }

  /** The scoring that one pass at `now` writes. */
  function Rescored(v: View, baseLimit: int, now: Instant): Scoring
    requires RingOk(v.sig.streaks.ring)
  {
    var score := Score(v.sig, now);
    var tier := TierFor(v.sig, v.sc.healthTier, score, now);
    var base := EffectiveBaseConcurrency(v.sig, baseLimit);
    var bias := EffectiveScoreBias(v, now, tier);
    var urgency := if DispatchBonusEligible(v, now, tier) then UrgencyBonus(v.sig, v.sc.healthTier, now) else 0.0;
    var limit := ConcurrencyLimitForTier(base, tier);
    Scoring(tier, score, score + bias as real + urgency, bias, base,
            if PremiumLimited(v.sig, now) && limit > 1 then 1 else limit)
  }

  function Recomputed(v: View, baseLimit: int, now: Instant): View
    requires RingOk(v.sig.streaks.ring)
  {
    View(v.sig, Rescored(v, baseLimit, now))
  }

  // ---------------------------------------------------------------- the fast snapshot and the two availabilities

  datatype Snapshot = Snapshot(tier: Tier, score: real, limit: int, proven: bool, available: bool)

  /** The account after a snapshot: premium accounts with 5h data are scored afresh first. */
  function Settled(v: View, baseLimit: int, now: Instant): View
    requires RingOk(v.sig.streaks.ring)
  {
    if PremiumPlan(v.sig.standing.plan) && v.sig.usage.valid5h then Recomputed(v, baseLimit, now) else v
  }

  function ReadSnapshot(a: View, baseLimit: int, now: Instant): Snapshot {
    var tier := CurrentTier(a);
    var score0 := if a.sc.dispatchScore == 0.0 && a.sc.schedulerScore != 0.0 then a.sc.schedulerScore
      else a.sc.dispatchScore;
    var score := if score0 == 0.0 && tier != Banned && a.sig.standing.hasToken && a.sig.standing.status != Error
                 then 100.0 + EffectiveScoreBias(a, now, tier) as real else score0;
    var base := if a.sc.baseConcurrencyEffective <= 0 then EffectiveBaseConcurrency(a.sig, baseLimit)
                else a.sc.baseConcurrencyEffective;
    var limit := if a.sc.dynamicConcurrencyLimit <= 0 then ConcurrencyLimitForTier(base, tier)
                 else a.sc.dynamicConcurrencyLimit;
    var available := && a.sig.standing.status != Error && tier != Banned && a.sig.standing.hasToken
                     && !(CoolingDown(a.sig, now) && !CooldownSuppressed(a.sig, now))
                     && !UsageExhausted(a.sig);
    Snapshot(tier, score, limit, a.sig.totalRequests > 10, available)
  }

  function SnapshotOf(v: View, baseLimit: int, now: Instant): Snapshot
    requires RingOk(v.sig.streaks.ring)
  {
    ReadSnapshot(Settled(v, baseLimit, now), baseLimit, now)
  }

  predicate IsAvailable(v: View, disabled: bool, now: Instant) {
    && !disabled
    && v.sig.standing.status != Error
    && CurrentTier(v) != Banned
    && !UsageExhausted(v.sig)
    && !PremiumLimited(v.sig, now)
    && !CoolingDown(v.sig, now)
    && v.sig.standing.hasToken
  }

  // ---------------------------------------------------------------- properties

  lemma SignOfProduct(d: real, w: real)
    requires w > 0.0 && d * w >= 0.0
    ensures d >= 0.0
  {
  }

  lemma FractionOrder(x: real, y: real, w: real)
    requires w > 0.0 && x <= y
    ensures x / w <= y / w
  {
    var p, q := x / w, y / w;
    assert p * w == x && q * w == y;
    assert (q - p) * w == y - x;
    SignOfProduct(q - p, w);
  }

  lemma ScaleOrder(b: real, x: real, y: real)
    requires b >= 0.0 && x <= y
    ensures b * x <= b * y
  {
  }

  lemma DecayFalls(base: real, e1: int, e2: int, window: int)
    requires base >= 0.0 && e1 <= e2
    ensures LinearDecay(base, e2, window) <= LinearDecay(base, e1, window)
  {
    if e1 < window && window > 0 {
      var w := window as real;
      FractionOrder(e1 as real, w, w);
      assert w / w == 1.0;
      if e2 < window {
        FractionOrder(e1 as real, e2 as real, w);
        ScaleOrder(base, 1.0 - e2 as real / w, 1.0 - e1 as real / w);
      } else {
        ScaleOrder(base, 0.0, 1.0 - e1 as real / w);
      }
    }
  }

  /** With no new signal the score only rises with time. */
  lemma ScoreNeverFalls(s: Signals, t1: Instant, t2: Instant)
    requires RingOk(s.streaks.ring) && t1 <= t2
    ensures Score(s, t1) <= Score(s, t2)
  {
    hide LinearDecay, SuccessRatePenalty, LatencyPenalty, UsagePenalty7d;
    DecayFalls(50.0, t1 - s.stamps.unauthorized, t2 - s.stamps.unauthorized, DAY);
    DecayFalls(22.0, t1 - s.stamps.rateLimited, t2 - s.stamps.rateLimited, HOUR);
    DecayFalls(18.0, t1 - s.stamps.timeout, t2 - s.stamps.timeout, 15 * MINUTE);
    DecayFalls(12.0, t1 - s.stamps.serverError, t2 - s.stamps.serverError, 15 * MINUTE);
  }

  lemma TierNeverWorsens(s: Signals, was: Tier, score1: real, score2: real, t1: Instant, t2: Instant)
    requires t1 <= t2 && score1 <= score2
    ensures TierRank(TierFor(s, was, score1, t1)) <= TierRank(TierFor(s, was, score2, t2))
  {
  }

  /** The last result was a failure, or an unauthorized failure is less than a day old. */
  predicate LateTrouble(s: Signals, now: Instant) {
    || (s.stamps.failure != 0 && s.stamps.failure > s.stamps.success)
    || (s.stamps.unauthorized != 0 && now - s.stamps.unauthorized < DAY)
  }

  /** No signal has ever been recorded. */
  predicate Unblemished(s: Signals) {
    && s.stamps.unauthorized == s.stamps.rateLimited == s.stamps.timeout == s.stamps.serverError == 0
    && s.streaks.failure <= 0 && s.streaks.success <= 0 && s.streaks.ring.cnt < 5 && s.streaks.latencyEwma < 5000.0
    && !s.usage.valid7d && s.totalRequests <= 10
  }

  /** What the chain of thresholds and caps amounts to: which accounts end up in which tier. */
  lemma TierExactly(s: Signals, was: Tier, score: real, now: Instant)
    ensures var t := TierFor(s, was, score, now);
      var freeUsage := if s.usage.valid7d && s.standing.plan == Free then s.usage.pct7d else 0.0;
      && (t == Banned <==> was == Banned)
      && (t == Risky <==> was != Banned && (score < 60.0 || freeUsage >= 90.0 || PremiumLimited(s, now)))
      && (t == Healthy <==>
            (was != Banned && score >= 85.0 && freeUsage < 85.0 && !PremiumLimited(s, now) && !LateTrouble(s, now)))
      && t != Unset
  {
  }

  /** Dispatch adds something to the score only for usable healthy or warm accounts; without a negative
      override it never takes anything away. */
  lemma DispatchAboveScore(v: View, baseLimit: int, now: Instant)
    requires RingOk(v.sig.streaks.ring)
    ensures var sc := Rescored(v, baseLimit, now);
      && (sc.dispatchScore != sc.schedulerScore ==>
            sc.healthTier in {Healthy, Warm} && !CoolingDown(v.sig, now) && v.sig.standing.hasToken)
      && (v.sig.scoreBiasOverride == None ==> sc.schedulerScore <= sc.dispatchScore < sc.schedulerScore + 125.0)
  {
    hide Score, TierFor;
  }

  lemma DecayWithin(base: real, elapsed: int, window: int)
    requires base >= 0.0 && elapsed >= 0
    ensures 0.0 <= LinearDecay(base, elapsed, window) <= base
    ensures elapsed == 0 && window > 0 ==> LinearDecay(base, elapsed, window) == base
    ensures elapsed >= window ==> LinearDecay(base, elapsed, window) == 0.0
  {
    if elapsed < window && window > 0 {
      DecayFalls(base, 0, elapsed, window);
      DecayFalls(base, elapsed, window, window);
    }
  }

  /** No account scores above 132 or below -106, whatever its signals, and an unblemished new one scores 100. */
  lemma ScoreWithin(s: Signals, now: Instant)
    requires RingOk(s.streaks.ring)
    requires s.stamps.unauthorized <= now && s.stamps.rateLimited <= now && s.stamps.timeout <= now
    requires s.stamps.serverError <= now
    ensures -106.0 <= Score(s, now) <= 132.0
    ensures Unblemished(s) ==> Score(s, now) == 100.0
  {
    hide LinearDecay, RecentSuccessRate, PremiumLimited;
    DecayWithin(50.0, now - s.stamps.unauthorized, DAY);
    DecayWithin(22.0, now - s.stamps.rateLimited, HOUR);
    DecayWithin(18.0, now - s.stamps.timeout, 15 * MINUTE);
    DecayWithin(12.0, now - s.stamps.serverError, 15 * MINUTE);
  }

  lemma BanKept(v: View, baseLimit: int, now: Instant)
    requires RingOk(v.sig.streaks.ring)
    ensures var t := Recomputed(v, baseLimit, now).sc.healthTier;
      t != Unset && (t == Banned <==> v.sc.healthTier == Banned)
  {
  }

  /** Scoring reads nothing it writes, except whether the account is banned, and that it keeps. */
  lemma RecomputeForgets(v: View, baseLimit: int, t1: Instant, t2: Instant)
    requires RingOk(v.sig.streaks.ring)
    ensures Recomputed(Recomputed(v, baseLimit, t1), baseLimit, t2) == Recomputed(v, baseLimit, t2)
  {
    BanKept(v, baseLimit, t1);
  }

  /** The account after scoring at each of the given times in turn. */
  function RecomputeRun(v: View, baseLimit: int, times: seq<Instant>): (r: View)
    requires RingOk(v.sig.streaks.ring)
    ensures r.sig == v.sig
  {
    if times == [] then v
    else Recomputed(RecomputeRun(v, baseLimit, times[..|times| - 1]), baseLimit, times[|times| - 1])
  }

  lemma {:induction false} RunForgets(v: View, baseLimit: int, times: seq<Instant>)
    requires RingOk(v.sig.streaks.ring) && times != []
    ensures RecomputeRun(v, baseLimit, times) == Recomputed(v, baseLimit, times[|times| - 1])
  {
    var n := |times| - 1;
    if n > 0 {
      RunForgets(v, baseLimit, times[..n]);
      RecomputeForgets(v, baseLimit, times[n - 1], times[n]);
    }
  }

  /** Over any run of scoring passes at rising times with no signal between them, score and
      tier never get worse, the limit stays inside 0..base and is 0 exactly for banned accounts. */
  lemma QuietRunImproves(v: View, baseLimit: int, times: seq<Instant>, k: nat)
    requires RingOk(v.sig.streaks.ring) && 0 < k <= |times|
    requires forall i, j | 0 <= i < j < |times| :: times[i] <= times[j]
    ensures var early, late := RecomputeRun(v, baseLimit, times[..k]).sc, RecomputeRun(v, baseLimit, times).sc;
            && early.schedulerScore <= late.schedulerScore
            && TierRank(early.healthTier) <= TierRank(late.healthTier)
            && 0 <= late.dynamicConcurrencyLimit <= EffectiveBaseConcurrency(v.sig, baseLimit)
            && (late.dynamicConcurrencyLimit == 0 <==> v.sc.healthTier == Banned)
  {
    var t1, t2 := times[k - 1], times[|times| - 1];
    RunForgets(v, baseLimit, times);
    RunForgets(v, baseLimit, times[..k]);
    ScoreNeverFalls(v.sig, t1, t2);
    TierNeverWorsens(v.sig, v.sc.healthTier, Score(v.sig, t1), Score(v.sig, t2), t1, t2);
    BanKept(v, baseLimit, t2);
  }

  /** Taking a snapshot does not change what the next snapshot at the same instant says. */
  lemma SnapshotStable(v: View, baseLimit: int, now: Instant)
    requires RingOk(v.sig.streaks.ring)
    ensures SnapshotOf(Settled(v, baseLimit, now), baseLimit, now) == SnapshotOf(v, baseLimit, now)
  {
    RecomputeForgets(v, baseLimit, now, now);
  }

  /** An available snapshot allows at least one request, and its tier is one of the three the scheduler indexes. */
  lemma SnapshotBounds(v: View, baseLimit: int, now: Instant)
    requires RingOk(v.sig.streaks.ring)
    ensures var s := SnapshotOf(v, baseLimit, now);
            && s.tier != Unset
            && (s.available ==> s.tier != Banned && s.limit > 0)
            && (s.limit <= 0 ==> s.tier == Banned)
  {
    BanKept(v, baseLimit, now);
  }

  /** The scheduler's snapshot and the admission check agree exactly when the account is neither
      disabled nor inside an exhausted premium 5h window, or is unusable on grounds both share. */
  lemma AvailabilitiesAgree(v: View, disabled: bool, baseLimit: int, now: Instant)
    requires RingOk(v.sig.streaks.ring)
    ensures SnapshotOf(v, baseLimit, now).available == IsAvailable(v, disabled, now)
      <==> || (!disabled && !PremiumLimited(v.sig, now))
           || v.sig.standing.status == Error || v.sc.healthTier == Banned || !v.sig.standing.hasToken
           || UsageExhausted(v.sig)
           || (CoolingDown(v.sig, now) && !CooldownSuppressed(v.sig, now))
  {
    BanKept(v, baseLimit, now);
  }

  /** An enabled account inside an exhausted premium window that the snapshot still offers. */
  lemma PremiumCanDiffer(v: View, now: Instant)
    requires RingOk(v.sig.streaks.ring) && PremiumLimited(v.sig, now)
    requires v.sig.standing.status == Ready && v.sig.standing.hasToken && v.sc.healthTier != Banned
    ensures SnapshotOf(v, 1, now).available && !IsAvailable(v, false, now)
  {
    BanKept(v, 1, now);
  }

  /** A disabled account that the snapshot still offers. */
  lemma AvailabilitiesCanDiffer(v: View, now: Instant)
    requires RingOk(v.sig.streaks.ring) && v.sig.standing.plan == OtherPlan && v.sig.standing.status == Ready
    requires v.sig.standing.hasToken
    requires v.sc.healthTier == Healthy
    ensures SnapshotOf(v, 1, now).available && !IsAvailable(v, true, now)
  {
  }

  // ---------------------------------------------------------------- recorded results

  function Recorded(r: Ring, success: bool): (r': Ring)
    requires RingOk(r)
    ensures RingOk(r')
  {
    Ring(r.results[r.idx := if success then 1 else 0],
         (r.idx + 1) % WINDOW,
         if r.cnt < WINDOW then r.cnt + 1 else r.cnt)
  }

  function Mark(success: bool): nat {
    if success then 1 else 0
  }

  function Marks(history: seq<bool>): seq<nat> {
    seq(|history|, i requires 0 <= i < |history| => Mark(history[i]))
  }

  function LastWindow(history: seq<bool>): seq<bool> {
    if |history| <= WINDOW then history else history[|history| - WINDOW..]
  }

  /** The marks of the ring from the oldest to the newest. */
  function InOrder(r: Ring): seq<nat>
    requires RingOk(r)
  {
    if r.cnt < WINDOW then r.results[..r.cnt] else r.results[r.idx..] + r.results[..r.idx]
  }

  ghost predicate RingHolds(r: Ring, history: seq<bool>) {
    RingOk(r) && InOrder(r) == Marks(LastWindow(history))
  }

  /** Overwriting the oldest mark of a ring, read from the place after it. */
  lemma Overwritten(a: seq<nat>, i: nat, m: nat)
    requires i < |a|
    ensures a[i := m][..i + 1] == a[..i] + [m]
    ensures a[i := m][i + 1..] + a[i := m][..i + 1] == (a[i..] + a[..i])[1..] + [m]
    ensures i + 1 == |a| ==> a[i := m][0..] + a[i := m][..0] == a[..i] + [m] == (a[i..] + a[..i])[1..] + [m]
  {
    assert a[i := m][..i + 1] == a[..i] + [m];
    assert a[i := m][i + 1..] == a[i + 1..];
    assert a[i..] == [a[i]] + a[i + 1..];
    assert (a[i..] + a[..i])[1..] == a[i + 1..] + a[..i];
  }

  lemma InOrderAfterRecord(r: Ring, success: bool)
    requires RingOk(r)
    ensures InOrder(Recorded(r, success)) == (if r.cnt < WINDOW then InOrder(r) else InOrder(r)[1..]) + [Mark(success)]
  {
    var a, i, m := r.results, r.idx, Mark(success);
    Overwritten(a, i, m);
    if r.cnt == WINDOW && i < WINDOW - 1 {
      assert Recorded(r, success) == Ring(a[i := m], i + 1, WINDOW);
    } else if r.cnt < WINDOW - 1 {
      assert Recorded(r, success) == Ring(a[i := m], i + 1, r.cnt + 1);
    } else {
      assert Recorded(r, success) == Ring(a[i := m], 0, WINDOW);
    }
  }

  lemma MarksAppend(h: seq<bool>, success: bool)
    ensures Marks(h + [success]) == Marks(h) + [Mark(success)]
  {
  }

  /** Recording a result keeps the ring equal to the last twenty results. */
  lemma RecordKeepsRing(r: Ring, history: seq<bool>, success: bool)
    requires RingHolds(r, history)
    ensures RingHolds(Recorded(r, success), history + [success])
  {
    InOrderAfterRecord(r, success);
    var w, w' := LastWindow(history), LastWindow(history + [success]);
    assert |InOrder(r)| == r.cnt == |w|;
    if r.cnt < WINDOW {
      assert w' == w + [success];
      MarksAppend(w, success);
    } else {
      assert w' == w[1..] + [success];
      MarksAppend(w[1..], success);
      assert Marks(w)[1..] == Marks(w[1..]);
    }
  }

  lemma {:induction false} SumConcat(a: seq<nat>, b: seq<nat>)
    ensures Sum(a + b) == Sum(a) + Sum(b)
  {
    if a == [] {
      assert a + b == b;
    } else {
      assert (a + b)[1..] == a[1..] + b;
      SumConcat(a[1..], b);
    }
  }

  /** The sliding success rate is the fraction of successes among the last twenty results. */
  lemma RateIsLastTwenty(r: Ring, history: seq<bool>)
    requires RingHolds(r, history)
    ensures RecentSuccessRate(r) ==
      if history == [] then 1.0 else Sum(Marks(LastWindow(history))) as real / |LastWindow(history)| as real
  {
    assert |InOrder(r)| == r.cnt;
    if r.cnt == WINDOW {
      assert r.results[..WINDOW] == r.results[..r.idx] + r.results[r.idx..];
      SumConcat(r.results[..r.idx], r.results[r.idx..]);
      SumConcat(r.results[r.idx..], r.results[..r.idx]);
    }
  }

  // ---------------------------------------------------------------- signals

  function NextEwma(ewma: real, latencyMs: int): real {
    if latencyMs <= 0 then ewma
    else if ewma == 0.0 then latencyMs as real
    else ewma * 0.8 + latencyMs as real * 0.2
  }

  /** A new latency pulls the average a fifth of the way towards itself and never past it. */
  lemma EwmaFollows(ewma: real, latencyMs: int)
    requires latencyMs > 0 && ewma != 0.0
    ensures var l, next := latencyMs as real, NextEwma(ewma, latencyMs);
      && (if ewma <= l then ewma <= next <= l else l <= next <= ewma)
      && l - next == 0.8 * (l - ewma)
  {
  }

  function EwmaRun(latencies: seq<int>): real {
    if latencies == [] then 0.0 else NextEwma(EwmaRun(latencies[..|latencies| - 1]), latencies[|latencies| - 1])
  }

  lemma EwmaRunOn(ewma: real, latencyMs: int)
    ensures forall seen :: ewma == EwmaRun(seen) ==> NextEwma(ewma, latencyMs) == EwmaRun(seen + [latencyMs])
  {
    forall seen | ewma == EwmaRun(seen)
      ensures NextEwma(ewma, latencyMs) == EwmaRun(seen + [latencyMs])
    {
      assert (seen + [latencyMs])[..|seen|] == seen;
    }
  }

  /** After any latencies the average lies between the least and the greatest positive one, and is zero exactly when
      there was none. */
  lemma {:induction false} EwmaWithinSeen(latencies: seq<int>, lo: int, hi: int)
    requires 0 < lo && forall i | 0 <= i < |latencies| && latencies[i] > 0 :: lo <= latencies[i] <= hi
    ensures EwmaRun(latencies) == 0.0 <==> forall i | 0 <= i < |latencies| :: latencies[i] <= 0
    ensures EwmaRun(latencies) == 0.0 || lo as real <= EwmaRun(latencies) <= hi as real
  {
    if latencies != [] {
      var init, last := latencies[..|latencies| - 1], latencies[|latencies| - 1];
      EwmaWithinSeen(init, lo, hi);
      assert forall i | 0 <= i < |init| :: init[i] == latencies[i];
      assert forall i | 0 <= i < |latencies| :: i < |init| || latencies[i] == last;
    }
  }

  function Demoted(tier: Tier): Tier {
    if tier == Healthy then Warm else Risky
  }

  /** What every failure report changes, whatever its kind. */
  function Struck(s: Signals, latencyMs: int, now: Instant): Signals
    requires RingOk(s.streaks.ring)
  {
    s.(streaks := Streaks(NextEwma(s.streaks.latencyEwma, latencyMs), 0, Clamp(s.streaks.failure + 1, 0, 20),
                          Recorded(s.streaks.ring, false)),
       stamps := s.stamps.(failure := now))
  }

  function KindStamped(t: Stamps, kind: FailureKind, now: Instant): Stamps {
    match kind
    case UnauthorizedFailure => t.(unauthorized := now)
    case TimeoutFailure => t.(timeout := now)
    case ServerFailure => t.(serverError := now)
    case _ => t
  }

  function TierAfterFailure(tier: Tier, kind: FailureKind): Tier {
    match kind
    case UnauthorizedFailure => Banned
    case TimeoutFailure => Demoted(tier)
    case ServerFailure => Demoted(tier)
    case TransportFailure => Demoted(tier)
    case ClientFailure => if tier == Healthy then Warm else tier
    case OtherFailure => tier
  }

  /** A failure report before the account is scored again. */
  function FailureNoted(v: View, kind: FailureKind, latencyMs: int, now: Instant): View
    requires RingOk(v.sig.streaks.ring)
  {
    var s := Struck(v.sig, latencyMs, now);
    View(s.(stamps := KindStamped(s.stamps, kind, now)),
         v.sc.(healthTier := TierAfterFailure(v.sc.healthTier, kind)))
  }

  function SuccessNoted(v: View, latencyMs: int, now: Instant): View
    requires RingOk(v.sig.streaks.ring)
  {
    View(v.sig.(streaks := Streaks(NextEwma(v.sig.streaks.latencyEwma, latencyMs),
                                   Clamp(v.sig.streaks.success + 1, 0, 20), 0, Recorded(v.sig.streaks.ring, true)),
                stamps := v.sig.stamps.(success := now)),
         v.sc.(healthTier := if v.sc.healthTier == Unset then Healthy else v.sc.healthTier))
  }

  /** A ban survives a failure report exactly when the failure is not a timeout, server or
      transport failure; only an unauthorized failure bans. */
  lemma BanAfterFailure(v: View, kind: FailureKind, latencyMs: int, baseLimit: int, now: Instant)
    requires RingOk(v.sig.streaks.ring)
    ensures Recomputed(FailureNoted(v, kind, latencyMs, now), baseLimit, now).sc.healthTier == Banned
      <==> || kind == UnauthorizedFailure
           || (v.sc.healthTier == Banned && kind != TimeoutFailure && kind != ServerFailure && kind != TransportFailure)
  {
    BanKept(FailureNoted(v, kind, latencyMs, now), baseLimit, now);
  }

  function CooldownTier(v: View, reason: Reason): Tier {
    match reason
    case Unauthorized => Banned
    case RateLimited => Demoted(CurrentTier(v))
    case _ => if v.sc.healthTier == Unset then Warm else v.sc.healthTier
  }

  /** A cooldown lifts a ban exactly when it is a rate-limit cooldown. */
  lemma BanAfterCooldown(v: View, reason: Reason)
    ensures CooldownTier(v, reason) == Banned
      <==> reason == Unauthorized || (v.sc.healthTier == Banned && reason != RateLimited)
  {
  }

  /** A ready account with a token and no history, once it has been banned. */
  const BANNED_VIEW: View := View(
    Signals(Standing(Ready, true, OtherPlan, 0, NoReason), Usage(0.0, false, 0.0, false, 0),
            Streaks(0.0, 0, 0, Ring(seq(WINDOW, _ => 0), 0, 0)), Stamps(0, 0, 0, 0, 0, 0), None, None, 0),
    Scoring(Banned, 0.0, 0.0, 0, 0, 0))

  /** A timeout and a rate limit each lift its ban. */
  lemma BanIsLifted()
    ensures RingOk(BANNED_VIEW.sig.streaks.ring)
    ensures Recomputed(FailureNoted(BANNED_VIEW, TimeoutFailure, 0, 1), 2, 1).sc.healthTier != Banned
    ensures CooldownTier(BANNED_VIEW, RateLimited) == Risky
  {
    BanAfterFailure(BANNED_VIEW, TimeoutFailure, 0, 2, 1);
  }

  // ---------------------------------------------------------------- the account object

  /** The mutex-protected fields of an account, grouped into the records above, and its atomic counters. */
  class Account {
    const dbID: int
    var standing: Standing
    var usage: Usage
    var streaks: Streaks
    var stamps: Stamps
    var scoring: Scoring
    var scoreBiasOverride: Option<int>
    var baseConcurrencyOverride: Option<int>
    var totalRequests: int
    var activeRequests: int
    var lastUsedAt: Instant
    var disabled: bool

    function State(): View
      reads this
    {
      View(Signals(standing, usage, streaks, stamps, scoreBiasOverride, baseConcurrencyOverride, totalRequests),
           scoring)
    }

    predicate Valid()
      reads `streaks
    {
      RingOk(streaks.ring)
    }

    function Fresh(baseLimit: int, now: Instant): (s: Snapshot)
      requires Valid()
      reads this
      ensures s.available ==> s.limit > 0 && s.tier != Unset && s.tier != Banned
    {
      SnapshotBounds(State(), baseLimit, now);
      SnapshotOf(State(), baseLimit, now)
    }

    constructor (dbID: int, plan: Plan, hasToken: bool)
      ensures Valid() && this.dbID == dbID && activeRequests == 0
      ensures RingHolds(streaks.ring, [])
    {
      this.dbID := dbID;
      standing := Standing(Ready, hasToken, plan, 0, NoReason);
      usage := Usage(0.0, false, 0.0, false, 0);
      streaks := Streaks(0.0, 0, 0, Ring(seq(WINDOW, _ => 0), 0, 0));
      stamps := Stamps(0, 0, 0, 0, 0, 0);
      scoring := Scoring(Unset, 0.0, 0.0, 0, 0, 0);
      scoreBiasOverride, baseConcurrencyOverride := None, None;
      totalRequests, activeRequests, lastUsedAt, disabled := 0, 0, 0, false;
    }

    method RecordResult(success: bool)
      requires Valid()
      modifies `streaks
      ensures streaks == old(streaks).(ring := Recorded(old(streaks.ring), success))
    {
      var r := streaks.ring;
      var results := r.results[r.idx := if success then 1 else 0];
      var idx := (r.idx + 1) % WINDOW;
      var cnt := r.cnt;
      if cnt < WINDOW {
        cnt := cnt + 1;
      }
      streaks := streaks.(ring := Ring(results, idx, cnt));
    }

    method RecentRate() returns (rate: real)
      requires Valid()
      ensures rate == RecentSuccessRate(streaks.ring)
    {
      var r := streaks.ring;
      if r.cnt == 0 {
        return 1.0;
      }
      var sum := 0;
      for i := 0 to r.cnt
        invariant sum == Sum(r.results[..i])
      {
        assert r.results[..i + 1] == r.results[..i] + [r.results[i]];
        SumConcat(r.results[..i], [r.results[i]]);
        sum := sum + r.results[i];
      }
      rate := sum as real / r.cnt as real;
    }

    method RecordLatency(latencyMs: int)
      modifies `streaks
      ensures streaks == old(streaks).(latencyEwma := NextEwma(old(streaks.latencyEwma), latencyMs))
      ensures forall seen :: old(streaks.latencyEwma) == EwmaRun(seen) ==>
        streaks.latencyEwma == EwmaRun(seen + [latencyMs])
    {
      EwmaRunOn(streaks.latencyEwma, latencyMs);
      if latencyMs <= 0 {
        return;
      }
      if streaks.latencyEwma == 0.0 {
        streaks := streaks.(latencyEwma := latencyMs as real);
        return;
      }
      streaks := streaks.(latencyEwma := streaks.latencyEwma * 0.8 + latencyMs as real * 0.2);
    }

    method TierAt(score: real, now: Instant) returns (tier: Tier)
      ensures tier == TierFor(State().sig, scoring.healthTier, score, now)
    {
      tier := Healthy;
      if score < 60.0 {
        tier := Risky;
      } else if score < 85.0 {
        tier := Warm;
      }
      if stamps.failure > stamps.success && stamps.failure != 0 && tier == Healthy {
        tier := Warm;
      }
      if stamps.unauthorized != 0 && now - stamps.unauthorized < DAY && tier == Healthy {
        tier := Warm;
      }
      if usage.valid7d && standing.plan == Free {
        if usage.pct7d >= 90.0 {
          tier := Risky;
        } else if usage.pct7d >= 85.0 && tier == Healthy {
          tier := Warm;
        }
      }
      if scoring.healthTier == Banned {
        tier := Banned;
      }
      if PremiumLimited(State().sig, now) && tier != Banned {
        tier := Risky;
      }
    }

    method RecomputeScheduler(baseLimit: int, now: Instant)
      requires Valid()
      modifies `scoring
      ensures State() == old(Recomputed(State(), baseLimit, now))
    {
      hide SchedulerBreakdown, ScoreOf, TierFor, UrgencyBonus;
      var v := State();
      var score := ScoreOf(SchedulerBreakdown(v.sig, now));
      var tier := TierAt(score, now);
      var base := EffectiveBaseConcurrency(v.sig, baseLimit);
      var bias := EffectiveScoreBias(v, now, tier);
      var urgency := 0.0;
      if DispatchBonusEligible(v, now, tier) {
        urgency := UrgencyBonus(v.sig, v.sc.healthTier, now);
      }
      var limit := ConcurrencyLimitForTier(base, tier);
      if PremiumLimited(v.sig, now) && limit > 1 {
        limit := 1;
      }
      scoring := Scoring(tier, score, score + bias as real + urgency, bias, base, limit);
    }

    method ReportRequestSuccess(baseLimit: int, latencyMs: int, now: Instant)
      requires Valid()
      modifies `streaks, `stamps, `scoring
      ensures Valid() && State() == old(Recomputed(SuccessNoted(State(), latencyMs, now), baseLimit, now))
    {
      hide Rescored, NextEwma, Clamp, RingOk;
      RecordLatency(latencyMs);
      RecordResult(true);
      stamps := stamps.(success := now);
      streaks := streaks.(success := Clamp(streaks.success + 1, 0, 20), failure := 0);
      if scoring.healthTier == Unset {
        scoring := scoring.(healthTier := Healthy);
      }
      RecomputeScheduler(baseLimit, now);
    }

    method ReportRequestFailure(kind: FailureKind, baseLimit: int, latencyMs: int, now: Instant)
      requires Valid()
      modifies `streaks, `stamps, `scoring
      ensures Valid() && State() == old(Recomputed(FailureNoted(State(), kind, latencyMs, now), baseLimit, now))
    {
      hide Rescored, NextEwma, Clamp, RingOk;
      RecordLatency(latencyMs);
      RecordResult(false);
      stamps := stamps.(failure := now);
      streaks := streaks.(failure := Clamp(streaks.failure + 1, 0, 20), success := 0);
      match kind {
        case UnauthorizedFailure =>
          stamps := stamps.(unauthorized := now);
          scoring := scoring.(healthTier := Banned);
        case TimeoutFailure =>
          stamps := stamps.(timeout := now);
          scoring := scoring.(healthTier := Demoted(scoring.healthTier));
        case ServerFailure =>
          stamps := stamps.(serverError := now);
          scoring := scoring.(healthTier := Demoted(scoring.healthTier));
        case TransportFailure =>
          scoring := scoring.(healthTier := Demoted(scoring.healthTier));
        case ClientFailure =>
          if scoring.healthTier == Healthy {
            scoring := scoring.(healthTier := Warm);
          }
        case OtherFailure =>
      }
      RecomputeScheduler(baseLimit, now);
    }

    method SetCooldownUntil(until: Instant, reason: Reason)
      modifies `standing, `scoring
      ensures standing == old(standing).(status := Cooldown, cooldownUntil := until, cooldownReason := reason)
      ensures scoring == old(scoring).(healthTier := CooldownTier(old(State()), reason))
    {
      standing := standing.(status := Cooldown, cooldownUntil := until, cooldownReason := reason);
      match reason {
        case Unauthorized => scoring := scoring.(healthTier := Banned);
        case RateLimited =>
          if CurrentTier(State()) == Healthy {
            scoring := scoring.(healthTier := Warm);
          } else {
            scoring := scoring.(healthTier := Risky);
          }
        case _ =>
          if scoring.healthTier == Unset {
            scoring := scoring.(healthTier := Warm);
          }
      }
    }

    method FastSchedulerSnapshot(baseLimit: int, now: Instant) returns (s: Snapshot)
      requires Valid()
      modifies `scoring
      ensures State() == old(Settled(State(), baseLimit, now))
      ensures s == old(Fresh(baseLimit, now)) == Fresh(baseLimit, now)
    {
      hide Rescored, RingOk, DispatchBonusEligible;
      SnapshotStable(State(), baseLimit, now);
      if PremiumPlan(standing.plan) && usage.valid5h {
        RecomputeScheduler(baseLimit, now);
      }
      var v := State();
      var tier := CurrentTier(v);
      var score := scoring.dispatchScore;
      var limit := scoring.dynamicConcurrencyLimit;
      if score == 0.0 && scoring.schedulerScore != 0.0 {
        score := scoring.schedulerScore;
      }
      if score == 0.0 && tier != Banned && standing.hasToken && standing.status != Error {
        score := 100.0 + EffectiveScoreBias(v, now, tier) as real;
      }
      if limit <= 0 {
        var base := scoring.baseConcurrencyEffective;
        if base <= 0 {
          base := EffectiveBaseConcurrency(v.sig, baseLimit);
        }
        limit := ConcurrencyLimitForTier(base, tier);
      }
      var available := standing.status != Error && tier != Banned && standing.hasToken;
      if CoolingDown(v.sig, now) && !CooldownSuppressed(v.sig, now) {
        available := false;
      }
      if UsageExhausted(v.sig) {
        available := false;
      }
      s := Snapshot(tier, score, limit, totalRequests > 10, available);
    }

    /** The compare-and-swap of the original cannot fail here; ActiveCounter models its interleavings. */
    method TryAcquire(limit: int, now: Instant) returns (ok: bool)
      modifies `activeRequests, `totalRequests, `lastUsedAt
      ensures ok <==> 0 < limit && old(activeRequests) < limit
      ensures activeRequests == old(activeRequests) + (if ok then 1 else 0)
      ensures totalRequests == old(totalRequests) + (if ok then 1 else 0)
      ensures ok ==> activeRequests <= limit
    {
      if limit <= 0 || activeRequests >= limit {
        return false;
      }
      activeRequests := activeRequests + 1;
      totalRequests := totalRequests + 1;
      lastUsedAt := now;
      return true;
    }

    method Release()
      modifies `activeRequests
      ensures activeRequests == old(activeRequests) - 1
    {
      activeRequests := activeRequests - 1;
    }
  }
}
