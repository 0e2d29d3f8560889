/** The store's plain scan over all accounts, used when no fast scheduler is installed: the best candidate by
    tier, then dispatch score, then load. Where the two judge the accounts alike, the fast scheduler's index
    hands out an account of the same tier. */
module StoreScan {
  import opened Accounts
  import opened Acquisition
  import opened SchedulerIndex
  import opened Wrappers

  /** What the scan compares. */
  datatype Offer = Offer(tier: Tier, score: real, limit: int, load: int)

  /** Better tier, then higher dispatch score, then lower load. */
  predicate Preferred(a: Offer, b: Offer) {
    || TierRank(a.tier) > TierRank(b.tier)
    || (TierRank(a.tier) == TierRank(b.tier) && (a.score > b.score || (a.score == b.score && a.load < b.load)))
  }

  function OfferOf(v: View, load: int, baseLimit: int, now: Instant): Offer
    requires RingOk(v.sig.streaks.ring)
  {
    var sc := Rescored(v, baseLimit, now);
    Offer(sc.healthTier, sc.dispatchScore, sc.dynamicConcurrencyLimit, load)
  }

  /** The scan may hand the account out. */
  predicate Admitted(v: View, disabled: bool, load: int, baseLimit: int, now: Instant)
    requires RingOk(v.sig.streaks.ring)
  {
    var o := OfferOf(v, load, baseLimit, now);
    IsAvailable(v, disabled, now) && o.limit > 0 && load < o.limit
  }

  /** Scoring an account on the way does not change what the scan sees of it. */
  lemma ScoringChangesNothing(v: View, disabled: bool, load: int, baseLimit: int, now: Instant)
    requires RingOk(v.sig.streaks.ring)
    ensures OfferOf(Recomputed(v, baseLimit, now), load, baseLimit, now) == OfferOf(v, load, baseLimit, now)
    ensures Admitted(Recomputed(v, baseLimit, now), disabled, load, baseLimit, now) ==
      Admitted(v, disabled, load, baseLimit, now)
  {
    RecomputeForgets(v, baseLimit, now, now);
    BanKept(v, baseLimit, now);
    hide Rescored;
  }

  /** An account as it stood when the scan began. */
  datatype Seen = Seen(id: int, view: View, disabled: bool, load: int)

  ghost predicate Candidate(s: Seen, exclude: set<int>, baseLimit: int, now: Instant)
    requires RingOk(s.view.sig.streaks.ring)
  {
    s.id !in exclude && Admitted(s.view, s.disabled, s.load, baseLimit, now)
  }

  ghost function SeenNow(a: Account): Seen
    reads a
  {
    Seen(a.dbID, a.State(), a.disabled, a.activeRequests)
  }

  ghost function AllSeen(accounts: seq<Account>): (seen: seq<Seen>)
    reads accounts
    requires forall i | 0 <= i < |accounts| :: accounts[i].Valid()
    ensures |seen| == |accounts| && forall i | 0 <= i < |accounts| :: seen[i] == SeenNow(accounts[i])
    ensures RingsOk(seen)
  {
    if accounts == [] then []
    else
      var a := accounts[|accounts| - 1];
      assert a.Valid() && SeenNow(a).view.sig.streaks == a.streaks;
      AllSeen(accounts[..|accounts| - 1]) + [SeenNow(a)]
  }

  ghost predicate RingsOk(seen: seq<Seen>) {
    forall i | 0 <= i < |seen| :: RingOk(seen[i].view.sig.streaks.ring)
  }

  ghost predicate Candidates(seen: seq<Seen>, i: nat, exclude: set<int>, baseLimit: int, now: Instant)
    requires RingsOk(seen) && i < |seen|
  {
    Candidate(seen[i], exclude, baseLimit, now)
  }

  function OfferAt(seen: seq<Seen>, i: nat, baseLimit: int, now: Instant): Offer
    requires RingsOk(seen) && i < |seen|
  {
    OfferOf(seen[i].view, seen[i].load, baseLimit, now)
  }

  /** `best` is a candidate to which none of the first `n` is preferred. */
  ghost predicate IsBest(seen: seq<Seen>, n: nat, best: nat, exclude: set<int>, baseLimit: int, now: Instant)
    requires RingsOk(seen) && best < n <= |seen|
  {
    && Candidates(seen, best, exclude, baseLimit, now)
    && forall j | 0 <= j < n && Candidates(seen, j, exclude, baseLimit, now) ::
         !Preferred(OfferAt(seen, j, baseLimit, now), OfferAt(seen, best, baseLimit, now))
  }

  ghost predicate NoneOf(seen: seq<Seen>, n: nat, exclude: set<int>, baseLimit: int, now: Instant)
    requires RingsOk(seen) && n <= |seen|
  {
    forall j | 0 <= j < n :: !Candidates(seen, j, exclude, baseLimit, now)
  }

  /** The account has been scored again or not, and is otherwise as it was seen. */
  ghost predicate SeenAs(a: Account, s: Seen, baseLimit: int, now: Instant)
    reads a
    requires RingOk(s.view.sig.streaks.ring)
  {
    && a.Valid() && a.dbID == s.id && a.disabled == s.disabled && a.activeRequests == s.load
    && (a.State() == s.view || a.State() == Recomputed(s.view, baseLimit, now))
  }

  /** The account is looked at: available, scored, and with room. */
  method Consider(a: Account, exclude: set<int>, baseLimit: int, now: Instant,
                  ghost s: Seen) returns (offer: Option<Offer>)
    requires RingOk(s.view.sig.streaks.ring) && SeenAs(a, s, baseLimit, now)
    modifies a`scoring
    ensures SeenAs(a, s, baseLimit, now)
    ensures offer == if Candidate(s, exclude, baseLimit, now) then Some(OfferOf(s.view, s.load, baseLimit, now))
      else None
  {
    hide Rescored, RingOk, IsAvailable;
    ScoringChangesNothing(s.view, s.disabled, s.load, baseLimit, now);
    RecomputeForgets(s.view, baseLimit, now, now);
    AvailabilityKept(s.view, s.disabled, baseLimit, now);
    if a.dbID in exclude || !IsAvailable(a.State(), a.disabled, now) {
      return None;
    }
    var load := a.activeRequests;
    a.RecomputeScheduler(baseLimit, now);
    var limit := a.scoring.dynamicConcurrencyLimit;
    if limit <= 0 || load >= limit {
      return None;
    }
    return Some(Offer(a.scoring.healthTier, a.scoring.dispatchScore, limit, load));
  }

  lemma AvailabilityKept(v: View, disabled: bool, baseLimit: int, now: Instant)
    requires RingOk(v.sig.streaks.ring)
    ensures IsAvailable(Recomputed(v, baseLimit, now), disabled, now) == IsAvailable(v, disabled, now)
  {
    BanKept(v, baseLimit, now);
  }

  lemma PreferredOneWay(a: Offer, b: Offer)
    ensures !(Preferred(a, b) && Preferred(b, a))
  {
  }

  /** The better of the best so far and a new offer; an exact tie may go either way. */
  lemma BestOfMore(seen: seq<Seen>, n: nat, best: nat, exclude: set<int>, baseLimit: int, now: Instant)
    requires RingsOk(seen) && n < |seen| && best < n && IsBest(seen, n, best, exclude, baseLimit, now)
    ensures !Candidates(seen, n, exclude, baseLimit, now) ==> IsBest(seen, n + 1, best, exclude, baseLimit, now)
    ensures Candidates(seen, n, exclude, baseLimit, now) ==>
      && (!Preferred(OfferAt(seen, n, baseLimit, now), OfferAt(seen, best, baseLimit, now)) ==>
            IsBest(seen, n + 1, best, exclude, baseLimit, now))
      && (!Preferred(OfferAt(seen, best, baseLimit, now), OfferAt(seen, n, baseLimit, now)) ==>
            IsBest(seen, n + 1, n, exclude, baseLimit, now))
  {
    hide Candidates, OfferAt;
  }

  lemma FirstCandidate(seen: seq<Seen>, n: nat, exclude: set<int>, baseLimit: int, now: Instant)
    requires RingsOk(seen) && n < |seen| && NoneOf(seen, n, exclude, baseLimit, now)
    ensures if Candidates(seen, n, exclude, baseLimit, now) then IsBest(seen, n + 1, n, exclude, baseLimit, now)
            else NoneOf(seen, n + 1, exclude, baseLimit, now)
  {
    hide Candidates, OfferAt;
  }

  lemma StartScan(accounts: seq<Account>, seen: seq<Seen>, exclude: set<int>, baseLimit: int, now: Instant)
    requires forall i | 0 <= i < |accounts| :: accounts[i].Valid()
    requires seen == AllSeen(accounts)
    ensures forall j | 0 <= j < |accounts| :: SeenAs(accounts[j], seen[j], baseLimit, now)
    ensures NoneOf(seen, 0, exclude, baseLimit, now)
  {
  }

  lemma OfferMeans(seen: seq<Seen>, i: nat, exclude: set<int>, baseLimit: int, now: Instant)
    requires RingsOk(seen) && i < |seen|
    ensures Candidates(seen, i, exclude, baseLimit, now) == Candidate(seen[i], exclude, baseLimit, now)
    ensures OfferAt(seen, i, baseLimit, now) == OfferOf(seen[i].view, seen[i].load, baseLimit, now)
  {
  }

  /** What it means to be the best candidate: no other is of a better tier, none of the same tier has a higher dispatch
      score, and none of the same tier and score has less to do. */
  lemma BestInFields(seen: seq<Seen>, n: nat, best: nat, exclude: set<int>, baseLimit: int, now: Instant, j: nat)
    requires RingsOk(seen) && best < n <= |seen| && j < n
    requires IsBest(seen, n, best, exclude, baseLimit, now) && Candidates(seen, j, exclude, baseLimit, now)
    ensures var b, o := OfferAt(seen, best, baseLimit, now), OfferAt(seen, j, baseLimit, now);
      && b.tier in {Healthy, Warm, Risky} && o.tier in {Healthy, Warm, Risky}
      && (o.tier == Healthy ==> b.tier == Healthy) && (o.tier == Warm ==> b.tier != Risky)
      && (o.tier == b.tier ==> b.score >= o.score)
      && (o.tier == b.tier && o.score == b.score ==> b.load <= o.load)
  {
    BanKept(seen[best].view, baseLimit, now);
    BanKept(seen[j].view, baseLimit, now);
    hide RingsOk, IsAvailable, Score, TierFor, EffectiveScoreBias, UrgencyBonus;
  }

  /** The scan: the best candidate is taken; `chosen` tells which entry of the list it was. */
  method NextExcluding(accounts: seq<Account>, exclude: set<int>, baseLimit: int, now: Instant)
    returns (best: Account?, ghost chosen: nat)
    requires forall i | 0 <= i < |accounts| :: accounts[i].Valid()
    modifies (set a | a in accounts)`scoring, (set a | a in accounts)`activeRequests,
             (set a | a in accounts)`totalRequests, (set a | a in accounts)`lastUsedAt
    ensures best == null ==> NoneOf(old(AllSeen(accounts)), |accounts|, exclude, baseLimit, now)
    ensures best != null ==> chosen < |accounts| && best == accounts[chosen]
    ensures best != null ==> IsBest(old(AllSeen(accounts)), |accounts|, chosen, exclude, baseLimit, now)
    ensures forall i | 0 <= i < |accounts| ::
      accounts[i].activeRequests == old(accounts[i].activeRequests) + if accounts[i] == best then 1 else 0
  {
    hide SeenAs, IsBest, NoneOf, Candidates, Candidate, OfferAt, RingOk, Account.State, Preferred;
    ghost var seen := AllSeen(accounts);
    best, chosen := null, 0;
    var bestOffer := Offer(Unset, 0.0, 0, 0);
    StartScan(accounts, seen, exclude, baseLimit, now);
    for i := 0 to |accounts|
      invariant forall j | 0 <= j < |accounts| :: SeenAs(accounts[j], seen[j], baseLimit, now)
      invariant best == null ==> NoneOf(seen, i, exclude, baseLimit, now)
      invariant best != null ==>
        chosen < i && best == accounts[chosen] && IsBest(seen, i, chosen, exclude, baseLimit, now)
      invariant best != null ==> bestOffer == OfferAt(seen, chosen, baseLimit, now)
      invariant forall j | 0 <= j < |accounts| :: accounts[j].activeRequests == old(accounts[j].activeRequests)
    {
      var offer := Consider(accounts[i], exclude, baseLimit, now, seen[i]);
      OfferMeans(seen, i, exclude, baseLimit, now);
      if best == null {
        FirstCandidate(seen, i, exclude, baseLimit, now);
      } else {
        BestOfMore(seen, i, chosen, exclude, baseLimit, now);
      }
      if offer.Some? {
        var coin := *;
        PreferredOneWay(offer.value, bestOffer);
        if best == null || Preferred(offer.value, bestOffer) || (coin && !Preferred(bestOffer, offer.value)) {
          best, bestOffer, chosen := accounts[i], offer.value, i;
        }
      }
    }
    if best != null {
      best.activeRequests := best.activeRequests + 1;
      best.totalRequests := best.totalRequests + 1;
      best.lastUsedAt := now;
    }
  }

  /** Takes the account a session is bound to, if both availability checks pass and it has room. */
  method TakeByIDExcluding(index: map<int, Account>, id: int, exclude: set<int>, baseLimit: int,
                           now: Instant) returns (acc: Account?)
    requires forall k | k in index :: index[k].Valid()
    modifies index.Values`scoring, index.Values`activeRequests, index.Values`totalRequests, index.Values`lastUsedAt
    ensures acc != null <==>
      id != 0 && id !in exclude && id in index &&
      old(&& IsAvailable(index[id].State(), index[id].disabled, now)
          && Usable(index[id].Fresh(baseLimit, now), index[id].activeRequests))
    ensures acc != null ==> acc == index[id]
    ensures forall k | k in index ::
      index[k].activeRequests == old(index[k].activeRequests) + if index[k] == acc then 1 else 0
  {
    hide IsAvailable, SnapshotOf, Rescored, Settled, RingOk, Account.State;
    if id == 0 || id in exclude || id !in index {
      return null;
    }
    var target := index[id];
    if !IsAvailable(target.State(), target.disabled, now) {
      return null;
    }
    var s := target.FastSchedulerSnapshot(baseLimit, now);
    if !s.available || s.limit <= 0 {
      return null;
    }
    var ok := target.TryAcquire(s.limit, now);
    if !ok {
      return null;
    }
    return target;
  }

  // ---------------------------------------------------------------- agreement with the fast scheduler

  /** Scored at this instant, enabled and outside an exhausted premium window, an account looks the same to the
      scan and to the scheduler's snapshot: same tier, same limit, and both or neither may use it. */
  lemma ScanAndSnapshotAgree(v: View, baseLimit: int, now: Instant, load: int)
    requires RingOk(v.sig.streaks.ring) && v == Recomputed(v, baseLimit, now) && !PremiumLimited(v.sig, now)
    ensures var s, o := SnapshotOf(v, baseLimit, now), OfferOf(v, load, baseLimit, now);
      && s.tier == o.tier && s.limit == o.limit && (o.score != 0.0 ==> s.score == o.score)
      && (Usable(s, load) <==> Admitted(v, false, load, baseLimit, now))
  {
    AvailabilitiesAgree(v, false, baseLimit, now);
    BanKept(v, baseLimit, now);
    hide Score, UrgencyBonus, EffectiveScoreBias;
  }

  lemma {:induction false} WantedOf(accounts: seq<Account?>, snaps: map<Account, Snapshot>, i: nat)
    requires Covers(snaps, accounts) && NoRepeats(accounts) && i < |accounts| && accounts[i] != null
    requires accounts[i].dbID != 0
    ensures var w := WantedSlot(accounts[i], snaps[accounts[i]]);
      if w.Some? then accounts[i].dbID in WantedBy(accounts, snaps)
        && WantedBy(accounts, snaps)[accounts[i].dbID] == w.value
      else accounts[i].dbID !in WantedBy(accounts, snaps)
    decreases |accounts|
  {
    var n := |accounts| - 1;
    if i < n {
      WantedOf(accounts[..n], snaps, i);
    } else {
      assert IdFree(accounts[..n], accounts[n].dbID);
      WantedByOk(accounts[..n], snaps, accounts[n].dbID);
    }
  }

  lemma {:induction false} WantedFrom(accounts: seq<Account?>, snaps: map<Account, Snapshot>, id: int) returns (i: nat)
    requires Covers(snaps, accounts) && id in WantedBy(accounts, snaps)
    ensures i < |accounts| && accounts[i] != null && accounts[i].dbID == id != 0
    ensures WantedBy(accounts, snaps)[id].entry.acc == accounts[i]
  {
    var n := |accounts| - 1;
    var rest := WantedBy(accounts[..n], snaps);
    if accounts[n] != null && accounts[n].dbID == id && WantedSlot(accounts[n], snaps[accounts[n]]).Some? {
      i := n;
    } else {
      i := WantedFrom(accounts[..n], snaps, id);
    }
  }

  /** Both ways of choosing see the same accounts at the same instant: each scored then, enabled, and outside
      an exhausted premium window. */
  ghost predicate SameView(accounts: seq<Account?>, seen: seq<Seen>, snaps: map<Account, Snapshot>,
                           load: map<Account, int>, baseLimit: int, now: Instant) {
    && Covers(snaps, accounts) && NoRepeats(accounts) && RingsOk(seen) && |seen| == |accounts|
    && forall i | 0 <= i < |accounts| ::
         && accounts[i] != null && accounts[i] in load && accounts[i].dbID == seen[i].id != 0
         && seen[i].view == Recomputed(seen[i].view, baseLimit, now) && !seen[i].disabled
           && !PremiumLimited(seen[i].view.sig, now)
         && snaps[accounts[i]] == SnapshotOf(seen[i].view, baseLimit, now) && load[accounts[i]] == seen[i].load
  }

  /** An account is a candidate of the scan exactly when the index holds it and a scheduler scan would stop at it. */
  lemma CandidateIsOnOffer(accounts: seq<Account?>, seen: seq<Seen>, snaps: map<Account, Snapshot>,
                           load: map<Account, int>, exclude: set<int>, baseLimit: int, now: Instant, i: nat)
    requires SameView(accounts, seen, snaps, load, baseLimit, now) && i < |accounts|
    ensures var c, id, s := WantedBy(accounts, snaps), seen[i].id, snaps[accounts[i]];
      && OfferAt(seen, i, baseLimit, now).tier == s.tier
      && (Candidates(seen, i, exclude, baseLimit, now) <==> id !in exclude && Usable(s, load[accounts[i]]))
      && (Candidates(seen, i, exclude, baseLimit, now) ==>
            id in c && c[id].entry.acc == accounts[i] && c[id].tier == s.tier && s.tier in INDEXED
              && !Passed(c[id], exclude, snaps, load))
      && (id in c ==> !Stale(c[id], s))
  {
    var v := seen[i].view;
    ScanAndSnapshotAgree(v, baseLimit, now, seen[i].load);
    SnapshotBounds(v, baseLimit, now);
    WantedOf(accounts, snaps, i);
    WantedIsFresh(accounts[i], snaps[accounts[i]]);
    hide Recomputed, SnapshotOf, WantedBy, Rescored;
  }

  lemma NothingStale(accounts: seq<Account?>, seen: seq<Seen>, snaps: map<Account, Snapshot>, load: map<Account, int>,
                     baseLimit: int, now: Instant, after: map<int, Slot>)
    requires SameView(accounts, seen, snaps, load, baseLimit, now) && Mended(WantedBy(accounts, snaps), after, snaps)
    ensures after == WantedBy(accounts, snaps)
  {
    hide SameView, Stale, WantedSlot, WantedBy;
    Viewed(accounts, seen, snaps, load, baseLimit, now);
    var c := WantedBy(accounts, snaps);
    forall id | id in c || id in after
      ensures id in after && id in c && after[id] == c[id]
    {
      var i := WantedFrom(accounts, snaps, id);
      CandidateIsOnOffer(accounts, seen, snaps, load, {}, baseLimit, now, i);
    }
  }

  lemma Viewed(accounts: seq<Account?>, seen: seq<Seen>, snaps: map<Account, Snapshot>, load: map<Account, int>,
               baseLimit: int, now: Instant)
    requires SameView(accounts, seen, snaps, load, baseLimit, now)
    ensures Covers(snaps, accounts) && RingsOk(seen) && |seen| == |accounts|
    ensures forall i | 0 <= i < |accounts| ::
      accounts[i] != null && accounts[i] in load && accounts[i].dbID == seen[i].id
  {
  }

  /** From an index that agrees with the accounts, the scheduler finds an account just when the scan does, and
      in the same tier. */
  lemma SchedulerAndScanPickSameTier(accounts: seq<Account?>, seen: seq<Seen>, snaps: map<Account, Snapshot>,
                                     load: map<Account, int>,
                                     exclude: set<int>, baseLimit: int, now: Instant,
                                     after: map<int, Slot>, fast: Account?, scan: Option<nat>)
    requires SameView(accounts, seen, snaps, load, baseLimit, now)
    requires Acquired(WantedBy(accounts, snaps), after, fast, exclude, snaps, load)
    requires scan.None? ==> NoneOf(seen, |seen|, exclude, baseLimit, now)
    requires scan.Some? ==> scan.value < |seen| && IsBest(seen, |seen|, scan.value, exclude, baseLimit, now)
    ensures fast == null <==> scan.None?
    ensures fast != null ==> fast in snaps && snaps[fast].tier == OfferAt(seen, scan.value, baseLimit, now).tier
  {
    hide SameView, Stale, WantedSlot, WantedBy, Candidates, OfferAt, Passed, Usable, Mended, Recomputed;
    Viewed(accounts, seen, snaps, load, baseLimit, now);
    var c := WantedBy(accounts, snaps);
    NothingStale(accounts, seen, snaps, load, baseLimit, now, after);
    forall i | 0 <= i < |seen| {
      CandidateIsOnOffer(accounts, seen, snaps, load, exclude, baseLimit, now, i);
    }
    if scan.Some? {
      assert Candidates(seen, scan.value, exclude, baseLimit, now);
    }
    if fast != null {
      var tierIdx: nat :| tierIdx < 3 && Chosen(c, TIER_ORDER[tierIdx], fast, exclude, snaps, load)
        && TiersPassed(c, tierIdx, exclude, snaps, load);
      var i := WantedFrom(accounts, snaps, fast.dbID);
      assert Candidates(seen, i, exclude, baseLimit, now);
      var k := scan.value;
      assert Candidates(seen, k, exclude, baseLimit, now);
      assert !Preferred(OfferAt(seen, i, baseLimit, now), OfferAt(seen, k, baseLimit, now));
      NoBetterTier(c, tierIdx, seen[k].id, exclude, snaps, load);
    }
  }

  lemma NoBetterTier(c: map<int, Slot>, tierIdx: nat, id: int, exclude: set<int>, snaps: map<Account, Snapshot>,
                     load: map<Account, int>)
    requires tierIdx < 3 && TiersPassed(c, tierIdx, exclude, snaps, load)
    requires id in c && c[id].tier in INDEXED && !Passed(c[id], exclude, snaps, load)
    ensures TierRank(c[id].tier) <= TierRank(TIER_ORDER[tierIdx])
  {
    hide Passed;
    assert TIER_ORDER[0] == Healthy && TIER_ORDER[1] == Warm && TIER_ORDER[2] == Risky;
    assert forall k | 0 <= k < tierIdx :: TierPassed(c, TIER_ORDER[k], false, exclude, snaps, load);
  }
}
