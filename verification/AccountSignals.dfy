/** What each signal of an account is worth by itself: how much the score would differ without it, what dispatch adds
    to the score, what a tier allows, and what a reported result leaves behind. */
module AccountSignals {
  import opened Accounts
  import opened Wrappers

  const ONE_MINUTE: int := 60_000_000_000
  const ONE_HOUR: int := 3_600_000_000_000

  // ---------------------------------------------------------------- penalties that fade

  /** What is left at `now` of a penalty that was full at `at` and is gone after `window`. */
  function Fading(at: Instant, most: real, window: int, now: Instant): real
    requires window > 0
  {
    if at == 0 || now - at >= window then 0.0 else most * (window - (now - at)) as real / window as real
  }

  lemma ShareOf(most: real, part: real, whole: real)
    requires whole > 0.0
    ensures most * (whole - part) / whole == most * (1.0 - part / whole)
  {
    var q := part / whole;
    assert q * whole == part;
    assert most * (whole - part) == most * (1.0 - q) * whole;
    assert most * (1.0 - q) * whole / whole == most * (1.0 - q);
  }

  lemma FadingIsDecay(at: Instant, most: real, window: int, now: Instant)
    requires window > 0
    ensures DecaySince(at, most, window, now) == Fading(at, most, window, now)
  {
    ShareOf(most, (now - at) as real, window as real);
    assert (window - (now - at)) as real == window as real - (now - at) as real;
  }

  /** Without a stamp the score is higher by what is left of that stamp's own penalty: 50 for an unauthorized failure,
      over a day; 22 for a rate limit, over an hour; 18 for a timeout and 12 for a server error, over 15 minutes. */
  lemma StampPenalties(s: Signals, now: Instant)
    requires RingOk(s.streaks.ring)
    ensures Score(s.(stamps := s.stamps.(unauthorized := 0)), now) ==
      Score(s, now) + Fading(s.stamps.unauthorized, 50.0, 24 * ONE_HOUR, now)
    ensures Score(s.(stamps := s.stamps.(rateLimited := 0)), now) ==
      Score(s, now) + Fading(s.stamps.rateLimited, 22.0, ONE_HOUR, now)
    ensures Score(s.(stamps := s.stamps.(timeout := 0)), now) ==
      Score(s, now) + Fading(s.stamps.timeout, 18.0, 15 * ONE_MINUTE, now)
    ensures Score(s.(stamps := s.stamps.(serverError := 0)), now) ==
      Score(s, now) + Fading(s.stamps.serverError, 12.0, 15 * ONE_MINUTE, now)
  {
    hide LinearDecay, Fading, SuccessRatePenalty, Clamp;
    FadingIsDecay(s.stamps.unauthorized, 50.0, 24 * ONE_HOUR, now);
    FadingIsDecay(s.stamps.rateLimited, 22.0, ONE_HOUR, now);
    FadingIsDecay(s.stamps.timeout, 18.0, 15 * ONE_MINUTE, now);
    FadingIsDecay(s.stamps.serverError, 12.0, 15 * ONE_MINUTE, now);
  }

  // ---------------------------------------------------------------- streaks, history and usage

  /** Failures in a row cost 6 each, up to 24. */
  lemma FailureStreak(s: Signals, now: Instant)
    requires RingOk(s.streaks.ring) && s.streaks.failure >= 0
    ensures Score(s.(streaks := s.streaks.(failure := 0)), now) ==
      Score(s, now) + if s.streaks.failure <= 4 then (6 * s.streaks.failure) as real else 24.0
  {
    hide DecaySince, SuccessRatePenalty;
  }

  /** Successes in a row bring 2 each, up to 12, outside an exhausted premium window. */
  lemma SuccessStreak(s: Signals, now: Instant)
    requires RingOk(s.streaks.ring) && s.streaks.success >= 0
    ensures Score(s, now) ==
      Score(s.(streaks := s.streaks.(success := 0)), now)
      + if PremiumLimited(s, now) then 0.0
        else if s.streaks.success <= 6 then (2 * s.streaks.success) as real else 12.0
  {
    hide DecaySince, SuccessRatePenalty;
  }

  /** More than ten requests bring 20, outside an exhausted premium window. */
  lemma ManyRequests(s: Signals, now: Instant)
    requires RingOk(s.streaks.ring)
    ensures Score(s, now) ==
      Score(s.(totalRequests := 0), now) + if s.totalRequests > 10 && !PremiumLimited(s, now) then 20.0 else 0.0
  {
    hide DecaySince, SuccessRatePenalty, Clamp;
  }

  /** Usage of the week counts on the free plan only, in seven steps; latency counts from 5, 10 and 20 seconds on. */
  lemma UsageAndLatency(s: Signals, now: Instant)
    requires RingOk(s.streaks.ring)
    ensures var pct := s.usage.pct7d;
      Score(s.(usage := s.usage.(valid7d := false)), now) ==
        Score(s, now)
        + if !s.usage.valid7d || s.standing.plan != Free || pct < 70.0 then 0.0
          else if pct < 85.0 then 8.0
          else if pct < 90.0 then 18.0
          else if pct < 95.0 then 25.0
          else if pct < 100.0 then 30.0
          else if pct < 110.0 then 40.0
          else 50.0
    ensures var ms := s.streaks.latencyEwma;
      Score(s.(streaks := s.streaks.(latencyEwma := 0.0)), now) ==
        Score(s, now) + if ms < 5000.0 then 0.0 else if ms < 10000.0 then 4.0 else if ms < 20000.0 then 8.0 else 15.0
  {
    hide DecaySince, SuccessRatePenalty, Clamp;
  }

  const EMPTY_RING: Ring := Ring(seq(WINDOW, _ => 0), 0, 0)

  lemma QuotientBelow(part: nat, whole: nat, share: real)
    requires whole > 0
    ensures part as real / whole as real < share <==> part as real < share * whole as real
  {
    var q := part as real / whole as real;
    assert q * whole as real == part as real;
    if q < share {
      assert (share - q) * whole as real > 0.0;
    } else {
      assert (q - share) * whole as real >= 0.0;
    }
  }

  lemma PenaltyByCount(r: Ring)
    requires RingOk(r)
    ensures var n, good := r.cnt, Sum(r.results[..r.cnt]);
      SuccessRatePenalty(r) ==
        if n < 5 then 0.0 else if 2 * good < n then 15.0 else if 4 * good < 3 * n then 8.0 else 0.0
    ensures RingOk(EMPTY_RING) && SuccessRatePenalty(EMPTY_RING) == 0.0
  {
    hide Sum;
    if r.cnt >= 5 {
      QuotientBelow(Sum(r.results[..r.cnt]), r.cnt, 0.5);
      QuotientBelow(Sum(r.results[..r.cnt]), r.cnt, 0.75);
    }
  }

  /** Of at least five recorded results, fewer than half succeeding costs 15, and fewer than three quarters 8. */
  lemma RecentResults(s: Signals, now: Instant)
    requires RingOk(s.streaks.ring)
    ensures RingOk(EMPTY_RING)
    ensures var n, good := s.streaks.ring.cnt, Sum(s.streaks.ring.results[..s.streaks.ring.cnt]);
      Score(s.(streaks := s.streaks.(ring := EMPTY_RING)), now) ==
        Score(s, now) + if n < 5 then 0.0 else if 2 * good < n then 15.0 else if 4 * good < 3 * n then 8.0 else 0.0
  {
    PenaltyByCount(s.streaks.ring);
    hide DecaySince, Clamp, SuccessRatePenalty, Sum, RingOk;
  }

  // ---------------------------------------------------------------- dispatch

  /** Which accounts get more than their score: healthy or warm before and after scoring, with a token, no error, no
      running cooldown and, on the free plan, less than 110 percent of the week's usage. */
  predicate Preferable(v: View, tier: Tier, now: Instant) {
    && tier in {Healthy, Warm} && CurrentTier(v) != Banned
    && v.sig.standing.hasToken && v.sig.standing.status != Error
    && !(v.sig.standing.status == Cooldown && now < v.sig.standing.cooldownUntil)
    && !(v.sig.usage.valid7d && v.sig.standing.plan == Free && v.sig.usage.pct7d >= 110.0)
  }

  /** Dispatch adds the override, or 100 for team and 50 for pro and plus accounts, and the urgency bonus. */
  lemma DispatchExactly(v: View, baseLimit: int, now: Instant)
    requires RingOk(v.sig.streaks.ring)
    ensures var sc := Rescored(v, baseLimit, now);
      var plan := v.sig.standing.plan;
      sc.dispatchScore == sc.schedulerScore +
        if !Preferable(v, sc.healthTier, now) then 0.0
        else
          UrgencyBonus(v.sig, v.sc.healthTier, now)
          + (if v.sig.scoreBiasOverride.Some? then v.sig.scoreBiasOverride.value as real
             else if plan == Team then 100.0
             else if plan == Pro || plan == Plus then 50.0
             else 0.0)
  {
    hide Score, TierFor, UrgencyBonus;
  }

  /** The nearer the reset of the 5h window, and the more of its quota is left, the higher the bonus: all 25 points only
      at the reset, half of them two hours before it, when no more than half of the quota is used. */
  lemma UrgencyExactly(s: Signals, was: Tier, now: Instant)
    requires PremiumPlan(s.standing.plan) && s.usage.valid5h && 0.0 <= s.usage.pct5h < 95.0
    requires now < s.usage.reset5hAt <= now + 4 * ONE_HOUR
    requires s.standing.hasToken && s.standing.status == Ready && was != Banned
    ensures var left := (4 * ONE_HOUR - (s.usage.reset5hAt - now)) as real / (4 * ONE_HOUR) as real;
      UrgencyBonus(s, was, now) == 25.0 * left * if s.usage.pct5h <= 50.0 then 1.0 else (100.0 - s.usage.pct5h) / 50.0
  {
    var remaining := s.usage.reset5hAt - now;
    ShareOf(1.0, remaining as real, (4 * ONE_HOUR) as real);
    assert (4 * ONE_HOUR - remaining) as real == (4 * ONE_HOUR) as real - remaining as real;
  }

  /** How many requests a tier allows at once, given the limit of a healthy account. */
  lemma LimitsByTier(baseLimit: int)
    ensures var all := if baseLimit <= 0 then 1 else baseLimit;
      && ConcurrencyLimitForTier(baseLimit, Healthy) == all
      && (var warm := ConcurrencyLimitForTier(baseLimit, Warm);
          if all == 1 then warm == 1 else all - 1 <= 2 * warm <= all)
      && ConcurrencyLimitForTier(baseLimit, Risky) == 1
      && ConcurrencyLimitForTier(baseLimit, Banned) == 0
      && ConcurrencyLimitForTier(baseLimit, Unset) == if all == 1 then 1 else 2
  {
  }

  /** What a healthy account is allowed: its own override when that is positive, else the limit of the store, or
      one. */
  lemma BaseLimit(s: Signals, storeBaseLimit: int)
    ensures var base, own := EffectiveBaseConcurrency(s, storeBaseLimit), s.baseConcurrencyOverride;
      && base >= 1
      && (own.Some? && own.value > 0 ==> base == own.value)
      && ((own == None || own.value <= 0) && storeBaseLimit > 0 ==> base == storeBaseLimit)
      && ((own == None || own.value <= 0) && storeBaseLimit <= 0 ==> base == 1)
  {
  }

  // ---------------------------------------------------------------- availability

  /** Why both checks refuse an account. */
  predicate Unusable(v: View) {
    || v.sig.standing.status == Error || v.sc.healthTier == Banned || !v.sig.standing.hasToken
    || (v.sig.standing.plan == Free && v.sig.usage.valid7d && v.sig.usage.pct7d >= 110.0)
  }

  /** A plus, pro or team account that has used up its 5h window, until the window is reset. */
  predicate WindowUsedUp(v: View, now: Instant) {
    && v.sig.standing.plan in {Plus, Pro, Team}
    && v.sig.usage.valid5h && v.sig.usage.pct5h >= 100.0 && now < v.sig.usage.reset5hAt
  }

  /** The two checks in the fields of the account: admission refuses disabled and cooling accounts and those whose 5h
      window is used up; the snapshot refuses cooling accounts only, unless a rate limit cools them and the window is
      used up. */
  lemma AvailableExactly(v: View, disabled: bool, baseLimit: int, now: Instant)
    requires RingOk(v.sig.streaks.ring)
    ensures var cooling := v.sig.standing.status == Cooldown && now < v.sig.standing.cooldownUntil;
      && (IsAvailable(v, disabled, now) <==> !Unusable(v) && !disabled && !cooling && !WindowUsedUp(v, now))
      && (SnapshotOf(v, baseLimit, now).available <==>
            !Unusable(v) && (!cooling || (v.sig.standing.cooldownReason == RateLimited && WindowUsedUp(v, now))))
  {
    BanKept(v, baseLimit, now);
    hide Score, TierFor, EffectiveScoreBias, UrgencyBonus;
  }

  // ---------------------------------------------------------------- reported results

  /** A failure leaves its own stamp and no other kind's, ends a run of successes, lengthens the run of failures up to
      20, and moves the tier down as its kind demands. */
  lemma FailureTrace(v: View, kind: FailureKind, latencyMs: int, now: Instant)
    requires RingOk(v.sig.streaks.ring) && 0 <= v.sig.streaks.failure <= 20
    ensures var noted := FailureNoted(v, kind, latencyMs, now);
      var was, left := v.sig.stamps, noted.sig.stamps;
      && left.failure == now && left.success == was.success && left.rateLimited == was.rateLimited
      && left.unauthorized == (if kind == UnauthorizedFailure then now else was.unauthorized)
      && left.timeout == (if kind == TimeoutFailure then now else was.timeout)
      && left.serverError == (if kind == ServerFailure then now else was.serverError)
      && noted.sig.streaks.success == 0
      && noted.sig.streaks.failure == (if v.sig.streaks.failure == 20 then 20 else v.sig.streaks.failure + 1)
      && noted.sig.standing == v.sig.standing && noted.sig.usage == v.sig.usage
    ensures var tier, tier' := v.sc.healthTier, FailureNoted(v, kind, latencyMs, now).sc.healthTier;
      && (kind == UnauthorizedFailure ==> tier' == Banned)
      && (kind in {TimeoutFailure, ServerFailure, TransportFailure} ==>
            (tier == Healthy ==> tier' == Warm) && (tier != Healthy ==> tier' == Risky))
      && (kind == ClientFailure ==> (tier == Healthy ==> tier' == Warm) && (tier != Healthy ==> tier' == tier))
      && (kind == OtherFailure ==> tier' == tier)
  {
    hide RingOk, Recorded, NextEwma;
  }

  /** A success leaves its stamp and ends a run of failures; it never moves the tier by itself, except that an account
      without one becomes healthy. */
  lemma SuccessTrace(v: View, latencyMs: int, now: Instant)
    requires RingOk(v.sig.streaks.ring) && 0 <= v.sig.streaks.success <= 20
    ensures var noted := SuccessNoted(v, latencyMs, now);
      && noted.sig.stamps == v.sig.stamps.(success := now) && noted.sig.streaks.failure == 0
      && noted.sig.streaks.success == (if v.sig.streaks.success == 20 then 20 else v.sig.streaks.success + 1)
      && noted.sig.standing == v.sig.standing && noted.sig.usage == v.sig.usage
      && noted.sc.healthTier == (if v.sc.healthTier == Unset then Healthy else v.sc.healthTier)
  {
    hide RingOk, Recorded, NextEwma;
  }
}
