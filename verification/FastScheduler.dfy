/** The in-memory account scheduler: it caches values computed from accounts, repairs stale entries
    while it scans, and restarts the scan after every repair. Holding the scheduler's mutex is modelled
    by each method being one step; `now` is the clock reading. */
module FastScheduler {
  import opened Accounts
  import opened Acquisition
  import opened SchedulerIndex
  import opened Sorting

  class FastScheduler {
    var baseLimit: int
    var buckets: map<Tier, seq<Entry>>
    var positions: map<int, Position>
    var cursors: seq<nat>
    var provenBounds: seq<nat>
    var provenCurs: seq<nat>

    ghost function Ix(): Index
      reads `buckets, `positions, `provenBounds
    {
      Index(buckets, positions, provenBounds)
    }

    ghost predicate Valid()
      reads `buckets, `positions, `provenBounds, `cursors, `provenCurs
    {
      WellFormed(Ix()) && |cursors| == 3 && |provenCurs| == 3
    }

    ghost function Slots(): map<int, Slot>
      requires Valid()
      reads `buckets, `positions, `provenBounds, `cursors, `provenCurs
    {
      Contents(Ix())
    }

    constructor (baseLimit: int)
      ensures Valid() && Slots() == map[] && this.baseLimit == if baseLimit <= 0 then 1 else baseLimit
    {
      this.baseLimit := if baseLimit <= 0 then 1 else baseLimit;
      buckets := map[Healthy := [], Warm := [], Risky := []];
      positions := map[];
      cursors, provenBounds, provenCurs := [0, 0, 0], [0, 0, 0], [0, 0, 0];
    }

    /** Counts the leading proven entries. */
    static method CountProvenEntries(entries: seq<Entry>) returns (n: nat)
      ensures n == ProvenPrefix(entries)
    {
      n := 0;
      while n < |entries| && entries[n].proven
        invariant n <= |entries|
        invariant ProvenPrefix(entries) == n + ProvenPrefix(entries[n..])
      {
        n := n + 1;
      }
    }

    method RebuildPositions(tier: Tier)
      requires tier in buckets
      requires DistinctIds(buckets[tier])
      modifies `positions
      ensures Recounted(old(positions), tier, buckets[tier], positions)
    {
      var entries := buckets[tier];
      for idx := 0 to |entries|
        invariant Recounted(old(positions), tier, entries[..idx], positions)
      {
        positions := positions[entries[idx].dbID := Position(tier, idx)];
        assert entries[..idx + 1][idx] == entries[idx];
      }
      assert entries[..|entries|] == entries;
    }

    method RemoveLocked(dbID: int)
      requires Valid()
      modifies `buckets, `positions, `provenBounds
      ensures Valid() && Slots() == old(Slots()) - {dbID}
    {
      hide Found, BucketOk, ProvenPrefix, Holds;
      if dbID !in positions {
        return;
      }
      ghost var ix := Ix();
      var pos := positions[dbID];
      assert Placed(ix, dbID);
      var entries := buckets[pos.tier];
      if pos.index >= |entries| {
        assert false;
      } else {
        PositionsDistinct(ix, pos.tier, pos.index);
        entries := entries[..pos.index] + entries[pos.index + 1..];
        buckets := buckets[pos.tier := entries];
        positions := positions - {dbID};
        RebuildPositions(pos.tier);
        var bound := CountProvenEntries(entries);
        provenBounds := provenBounds[TierIndex(pos.tier) := bound];
        RemovalReplaces(ix, dbID, Ix());
        TakenOut(ix, dbID, Ix());
      }
    }

    /** The tail of insertLocked: append, sort, recount. */
    method PutEntry(tier: Tier, e: Entry)
      requires Valid() && tier in INDEXED
      requires e.acc.dbID == e.dbID != 0 && e.dbID !in positions
      modifies `buckets, `positions, `provenBounds
      ensures Valid() && Slots() == old(Slots())[e.dbID := Slot(tier, e)]
    {
      hide Found, BucketOk, ProvenPrefix, Holds, OneMore, Placed, StableSort, WellFormed;
      ghost var ix := Ix();
      BucketsThree(ix);
      ghost var slot := Slot(tier, e);
      var entries := StableSort(Before, buckets[tier] + [e]);
      InsertionDistinct(ix, slot);
      buckets := buckets[tier := entries];
      RebuildPositions(tier);
      var bound := CountProvenEntries(entries);
      provenBounds := provenBounds[TierIndex(tier) := bound];
      InsertionReplaces(ix, slot, Ix());
      PutIn(ix, slot, Ix());
    }

    method InsertLocked(acc: Account, now: Instant)
      requires Valid() && acc.Valid() && acc.dbID !in positions
      modifies `buckets, `positions, `provenBounds, acc`scoring
      ensures acc.Valid() && acc.Fresh(baseLimit, now) == old(acc.Fresh(baseLimit, now))
      ensures Valid() && Slots() == Apply(old(Slots()), acc.dbID, WantedSlot(acc, old(acc.Fresh(baseLimit, now))))
    {
      hide SnapshotOf, RingOk, Account.State, WellFormed, Apply;
      assert acc.dbID !in Slots();
      ApplyLaws(Slots(), acc.dbID, WantedSlot(acc, acc.Fresh(baseLimit, now)));
      if acc.dbID == 0 {
        return;
      }
      var s := acc.FastSchedulerSnapshot(baseLimit, now);
      if !s.available || s.limit <= 0 {
        return;
      }
      if s.tier != Healthy && s.tier != Warm && s.tier != Risky {
        return;
      }
      PutEntry(s.tier, Entry(acc, acc.dbID, s.score, s.proven));
    }

    method Update(acc: Account?, now: Instant)
      requires Valid() && (acc != null ==> acc.Valid())
      modifies `buckets, `positions, `provenBounds, (if acc == null then {} else {acc})`scoring
      ensures Valid()
      ensures acc == null ==> Slots() == old(Slots())
      ensures acc != null ==>
                && acc.Valid() && acc.Fresh(baseLimit, now) == old(acc.Fresh(baseLimit, now))
                && Slots() == Apply(old(Slots()), acc.dbID, WantedSlot(acc, old(acc.Fresh(baseLimit, now))))
    {
      hide SnapshotOf, RingOk, Account.State, WellFormed, Apply, WantedSlot;
      if acc == null {
        return;
      }
      ApplyLaws(Slots(), acc.dbID, WantedSlot(acc, acc.Fresh(baseLimit, now)));
      RemoveLocked(acc.dbID);
      assert acc.dbID !in Slots();
      InsertLocked(acc, now);
    }

    method Remove(dbID: int)
      requires Valid()
      modifies `buckets, `positions, `provenBounds
      ensures Valid() && Slots() == old(Slots()) - {dbID}
    {
      if dbID == 0 {
        NoZeroId(Ix());
        return;
      }
      RemoveLocked(dbID);
    }

    method SetBaseLimit(limit: int)
      modifies `baseLimit
      ensures baseLimit == if limit <= 0 then 1 else limit
    {
      baseLimit := if limit <= 0 then 1 else limit;
    }

    /** The first pass of Rebuild: every wanted entry into its bucket, unsorted. */
    method Collect(accounts: seq<Account?>, now: Instant, ghost snaps: map<Account, Snapshot>)
      returns (filed: map<Tier, seq<Entry>>)
      requires forall a: Account | a in accounts :: a.Valid() && a in snaps && a.Fresh(baseLimit, now) == snaps[a]
      requires NoRepeats(accounts)
      modifies (set a: Account | a in accounts)`scoring
      ensures filed.Keys == INDEXED && WantOk(WantedBy(accounts, snaps))
      ensures forall t | t in INDEXED :: Bucketful(filed[t], t, WantedBy(accounts, snaps))
    {
      hide SnapshotOf, RingOk, Account.State, Bucketful, WantOk;
      filed := map[Healthy := [], Warm := [], Risky := []];
      ghost var want: map<int, Slot> := map[];
      assert WantOk(want) && forall t | t in INDEXED :: Bucketful(filed[t], t, want) by {
        EmptyBucketful();
      }
      for i := 0 to |accounts|
        invariant filed.Keys == INDEXED
        invariant forall a: Account | a in accounts :: a.Valid() && a.Fresh(baseLimit, now) == snaps[a]
        invariant forall t | t in INDEXED :: Bucketful(filed[t], t, want)
        invariant want == WantedBy(accounts[..i], snaps) && WantOk(want)
      {
        var acc := accounts[i];
        assert accounts[..i + 1][..i] == accounts[..i];
        if acc != null && acc.dbID != 0 {
          assert acc in accounts;
          var s := acc.FastSchedulerSnapshot(baseLimit, now);
          if s.available && s.limit > 0 && (s.tier == Healthy || s.tier == Warm || s.tier == Risky) {
            var e := Entry(acc, acc.dbID, s.score, s.proven);
            assert IdFree(accounts[..i], acc.dbID);
            WantedByOk(accounts[..i], snaps, acc.dbID);
            forall t | t in INDEXED {
              BucketfulGrows(filed[t], t, want, Slot(s.tier, e));
            }
            filed := filed[s.tier := filed[s.tier] + [e]];
            want := want[acc.dbID := Slot(s.tier, e)];
          }
        }
        WantedByOk(accounts[..i + 1], snaps, 0);
      }
      assert accounts[..|accounts|] == accounts;
    }

    /** One turn of the second pass of Rebuild: sort a bucket and recount it. */
    method FileBucket(tier: Tier, ghost want: map<int, Slot>, ghost done: set<Tier>)
      requires Filing(Ix(), want, done) && tier in INDEXED && tier !in done
      modifies `buckets, `positions, `provenBounds
      ensures Filing(Ix(), want, done + {tier})
    {
      hide Filing, Recounted, ProvenPrefix;
      ghost var ix := Ix();
      FilingBasics(ix, want, done, tier);
      var entries := buckets[tier];
      if |entries| == 0 {
        provenBounds := provenBounds[TierIndex(tier) := 0];
        EmptyStep(ix, want, done, tier, Ix());
      } else {
        entries := StableSort(Before, entries);
        buckets := buckets[tier := entries];
        RebuildPositions(tier);
        var bound := CountProvenEntries(entries);
        provenBounds := provenBounds[TierIndex(tier) := bound];
        FilingStep(ix, want, done, tier, Ix());
      }
    }

    method Rebuild(accounts: seq<Account?>, now: Instant)
      requires Valid()
      requires forall a: Account | a in accounts :: a.Valid()
      requires NoRepeats(accounts)
      modifies `buckets, `positions, `provenBounds, (set a: Account | a in accounts)`scoring
      ensures Valid()
      ensures Slots() == WantedBy(accounts, old(FreshMap(accounts, baseLimit, now)))
    {
      hide SnapshotOf, RingOk, Account.State, Bucketful, WantOk, Filing, WellFormed;
      assert |provenBounds| == 3 by {
        BucketsThree(Ix());
      }
      ghost var want := WantedBy(accounts, FreshMap(accounts, baseLimit, now));
      buckets := Collect(accounts, now, FreshMap(accounts, baseLimit, now));
      positions := map[];
      StartFiling(Ix(), want);
      ghost var done: set<Tier> := {};
      for tierIdx := 0 to 3
        invariant Filing(Ix(), want, done)
        invariant done == set i | 0 <= i < tierIdx :: TIER_ORDER[i]
      {
        FileBucket(TIER_ORDER[tierIdx], want, done);
        done := done + {TIER_ORDER[tierIdx]};
      }
      assert TIER_ORDER[0] in done && TIER_ORDER[1] in done && TIER_ORDER[2] in done;
      EndFiling(Ix(), want, done);
    }

    ghost function Members(): set<Account>
      requires Valid()
      reads `buckets, `positions, `provenBounds, `cursors, `provenCurs
    {
      set id | id in Slots() :: Slots()[id].entry.acc
    }

    /** `snaps` and `load` are the snapshots and active requests of the indexed accounts. */
    ghost predicate Sees(accs: set<Account>, snaps: map<Account, Snapshot>, load: map<Account, int>, now: Instant)
      reads `baseLimit, accs
    {
      forall a | a in accs :: Known(a, snaps, load, now)
    }

    ghost predicate Known(a: Account, snaps: map<Account, Snapshot>, load: map<Account, int>, now: Instant)
      reads `baseLimit, a
    {
      a.Valid() && a in snaps && a in load && a.Fresh(baseLimit, now) == snaps[a] && a.activeRequests == load[a]
    }

    /** A stale entry is taken out and, when its account may still be used, filed afresh. */
    method Refile(entry: Entry, s: Snapshot, now: Instant)
      requires Valid() && entry.acc.Valid() && entry.acc.Fresh(baseLimit, now) == s && entry.acc.dbID == entry.dbID
      modifies `buckets, `positions, `provenBounds, entry.acc`scoring
      ensures Valid() && Slots() == Apply(old(Slots()), entry.dbID, WantedSlot(entry.acc, s))
      ensures entry.acc.Valid() && entry.acc.Fresh(baseLimit, now) == s
    {
      hide SnapshotOf, RingOk, Account.State, WellFormed, Apply;
      ApplyLaws(Slots(), entry.dbID, WantedSlot(entry.acc, s));
      RemoveLocked(entry.dbID);
      if s.available && s.limit > 0 {
        assert entry.dbID !in Slots();
        InsertLocked(entry.acc, now);
      }
    }

    /** The body of the scan for one entry. */
    method TryEntry(tier: Tier, entry: Entry, exclude: set<int>, now: Instant,
                    ghost snaps: map<Account, Snapshot>, ghost load: map<Account, int>)
      returns (acc: Account?, stale: bool)
      requires Valid() && entry.dbID in Slots() && Slots()[entry.dbID] == Slot(tier, entry)
      requires entry.acc.dbID == entry.dbID && Known(entry.acc, snaps, load, now)
      modifies `buckets, `positions, `provenBounds, entry.acc`scoring,
               entry.acc`activeRequests, entry.acc`totalRequests, entry.acc`lastUsedAt
      ensures Valid()
      ensures !stale ==> Ix() == old(Ix())
      ensures acc == null ==> Known(entry.acc, snaps, load, now)
      ensures acc == null && !stale ==> Passed(Slot(tier, entry), exclude, snaps, load)
      ensures stale ==> acc == null && MendsEntry(old(Slots()), entry, tier, Slots(), exclude, snaps)
      ensures acc != null ==> acc == entry.acc && Offered(Slot(tier, entry), exclude, snaps, load)
      ensures acc != null ==> acc.activeRequests == old(acc.activeRequests) + 1
    {
      hide SnapshotOf, RingOk, WellFormed, Stale;
      if entry.dbID in exclude {
        return null, false;
      }
      var s := entry.acc.FastSchedulerSnapshot(baseLimit, now);
      if Stale(Slot(tier, entry), s) {
        Refile(entry, s, now);
        return null, true;
      }
      if !s.available || s.limit <= 0 {
        return null, false;
      }
      var ok := entry.acc.TryAcquire(s.limit, now);
      if !ok {
        return null, false;
      }
      return entry.acc, false;
    }

    /** One round-robin scan of bucket positions `rangeStart..rangeEnd`. A stale entry met on the way is
        taken out, put back where its snapshot wants it, and reported to the caller. */
    method ScanRange(tier: Tier, rangeStart: nat, rangeEnd: nat, cursor: nat, exclude: set<int>, now: Instant,
                     ghost range: seq<Entry>, ghost accs: set<Account>, ghost snaps: map<Account, Snapshot>,
                     ghost load: map<Account, int>)
      returns (acc: Account?, stale: bool)
      requires Valid() && tier in INDEXED && rangeStart <= rangeEnd <= |buckets[tier]|
      requires range == buckets[tier][rangeStart..rangeEnd]
      requires Members() <= accs && Sees(accs, snaps, load, now)
      modifies `buckets, `positions, `provenBounds, Members()`scoring,
               Members()`activeRequests, Members()`totalRequests, Members()`lastUsedAt
      ensures Valid()
      ensures !stale ==> Ix() == old(Ix())
      ensures acc == null ==> Sees(accs, snaps, load, now)
      ensures acc == null && !stale ==>
        forall i | 0 <= i < |range| :: Passed(Slot(tier, range[i]), exclude, snaps, load)
      ensures stale ==> acc == null && Mends(old(Slots()), range, cursor, tier, Slots(), exclude, snaps, load)
      ensures acc != null ==> Picked(range, cursor, tier, acc, exclude, snaps, load)
      ensures acc != null ==> acc in accs && Loaded(accs, acc, load)
    {
      hide SnapshotOf, RingOk, Account.Fresh, Account.State, WellFormed, Passed, Offered;
      hide Repaired, Mends, MendsEntry, Picked, Cyclic, Usable, WantedSlot, Apply, ScanOrder;
      ghost var here := Slots();
      BucketsThree(Ix());
      var bucket := buckets[tier];
      var rangeLen := rangeEnd - rangeStart;
      acc, stale := null, false;
      if rangeLen <= 0 {
        return;
      }
      var start := Cyclic(cursor, 0, rangeLen);
      ghost var order := ScanOrder(range, start);
      for offset := 0 to rangeLen
        invariant Ix() == old(Ix()) && acc == null && !stale
        invariant Sees(accs, snaps, load, now)
        invariant forall k | 0 <= k < offset :: Passed(Slot(tier, order[k]), exclude, snaps, load)
      {
        var entry := bucket[rangeStart + Cyclic(start, offset, rangeLen)];
        ScanOrderAt(range, start, offset);
        assert entry == order[offset];
        EntryListed(Ix(), tier, entry);
        assert entry.acc in accs;
        acc, stale := TryEntry(tier, entry, exclude, now, snaps, load);
        if acc != null {
          FirstPicked(range, cursor, offset, tier, acc, exclude, snaps, load);
          return;
        }
        if stale {
          FirstMended(here, range, cursor, offset, tier, Slots(), exclude, snaps, load);
          return;
        }
      }
      OrderCoversRange(range, start, tier, exclude, snaps, load);
    }

    ghost function Snaps(now: Instant): (snaps: map<Account, Snapshot>)
      requires Valid() && forall a | a in Members() :: a.Valid()
      reads this, Members()
    {
      map a | a in Members() :: a.Fresh(baseLimit, now)
    }

    ghost function Loads(): map<Account, int>
      requires Valid()
      reads this, Members()
    {
      map a | a in Members() :: a.activeRequests
    }

    /** Scans one tier: the proven prefix first, then the whole bucket. */
    method ScanTier(tierIdx: nat, exclude: set<int>, now: Instant,
                    ghost accs: set<Account>, ghost snaps: map<Account, Snapshot>, ghost load: map<Account, int>)
      returns (acc: Account?, stale: bool)
      requires Valid() && tierIdx < 3 && Members() <= accs && Sees(accs, snaps, load, now)
      modifies `buckets, `positions, `provenBounds, `cursors, `provenCurs, Members()`scoring,
               Members()`activeRequests, Members()`totalRequests, Members()`lastUsedAt
      ensures Valid()
      ensures !stale ==> Ix() == old(Ix())
      ensures acc == null ==> Sees(accs, snaps, load, now)
      ensures acc == null && !stale ==> TierPassed(old(Slots()), TIER_ORDER[tierIdx], false, exclude, snaps, load)
      ensures stale ==>
                acc == null && MendedInTier(old(Ix()), tierIdx, old(cursors), old(provenCurs), Slots(), exclude, snaps,
                                            load)
      ensures TierTurned(old(Ix()), tierIdx, old(cursors), old(provenCurs), cursors, provenCurs, exclude, snaps, load)
      ensures acc != null ==> acc in accs && Loaded(accs, acc, load)
      ensures acc != null ==> PickedInTier(old(Ix()), tierIdx, old(cursors), old(provenCurs), acc, exclude, snaps, load)
    {
      hide SnapshotOf, RingOk, Account.Fresh, Account.State, WellFormed, Passed;
      hide Offered, Mends, Picked, TierPassed, TierTurned;
      acc, stale := null, false;
      BucketsThree(Ix());
      var tier := TIER_ORDER[tierIdx];
      ghost var ix, curs, provenCurs0 := Ix(), cursors, provenCurs;
      ProvenBound(ix, tierIdx);
      if |buckets[tier]| == 0 {
        WholeTierPassed(ix, tier, exclude, snaps, load);
        NothingScanned(ix, tierIdx, curs, provenCurs0, exclude, snaps, load);
        return;
      }
      var provenBound := provenBounds[tierIdx];
      if provenBound > 0 {
        var cursor := provenCurs[tierIdx];
        provenCurs := provenCurs[tierIdx := cursor + 1];
        acc, stale := ScanRange(tier, 0, provenBound, cursor, exclude, now, buckets[tier][0..provenBound], accs, snaps,
                                load);
        if acc != null {
          ProvenPicked(ix, tierIdx, curs, provenCurs0, acc, exclude, snaps, load);
          return;
        }
        if stale {
          ProvenMended(ix, tierIdx, curs, provenCurs0, Slots(), exclude, snaps, load);
          return;
        }
      }
      ProvenTierPassed(ix, tierIdx, exclude, snaps, load);
      WholeScanned(ix, tierIdx, curs, provenCurs0, provenCurs, exclude, snaps, load);
      var cursor := cursors[tierIdx];
      cursors := cursors[tierIdx := cursor + 1];
      ghost var whole := buckets[tier][0..|buckets[tier]|];
      acc, stale := ScanRange(tier, 0, |buckets[tier]|, cursor, exclude, now, whole, accs, snaps, load);
      if acc == null && !stale {
        WholeTierPassed(ix, tier, exclude, snaps, load);
      }
    }

    /** One pass over the tiers, best first. */
    method ScanAll(exclude: set<int>, now: Instant,
                   ghost accs: set<Account>, ghost snaps: map<Account, Snapshot>, ghost load: map<Account, int>)
      returns (acc: Account?, stale: bool)
      requires Valid() && Members() <= accs && Sees(accs, snaps, load, now)
      modifies `buckets, `positions, `provenBounds, `cursors, `provenCurs, Members()`scoring,
               Members()`activeRequests, Members()`totalRequests, Members()`lastUsedAt
      ensures Valid()
      ensures !stale ==> Ix() == old(Ix())
      ensures acc == null ==> Sees(accs, snaps, load, now)
      ensures acc == null && !stale ==> TiersPassed(Slots(), 3, exclude, snaps, load)
      ensures stale ==>
                && acc == null
                && MendedInTurn(old(Ix()), old(cursors), old(provenCurs), Slots(), exclude, snaps, load)
                && exists id ::
                     Repaired(old(Slots()), id, Slots(), snaps) && Reached(old(Slots()), id, exclude, snaps, load)
      ensures Turned(old(Ix()), 3, old(cursors), old(provenCurs), cursors, provenCurs, exclude, snaps, load)
      ensures acc != null ==> acc in accs && Loaded(accs, acc, load)
      ensures acc != null ==> Best(Slots(), acc, exclude, snaps, load)
      ensures acc != null ==> TakenInTurn(old(Ix()), old(cursors), old(provenCurs), acc, exclude, snaps, load)
    {
      hide SnapshotOf, RingOk, Account.Fresh, Account.State, WellFormed, Passed, Repaired, Reached, TierPassed, Chosen;
      hide Turned, TierTurned, MendsInTier, MendedInTier, PickedInTier;
      ghost var ix, here, curs, provenCurs0 := Ix(), Slots(), cursors, provenCurs;
      TurnedNowhere(ix, curs, provenCurs0, exclude, snaps, load);
      SlotsOwned(ix);
      acc, stale := null, false;
      for tierIdx := 0 to 3
        invariant Valid() && Ix() == ix && acc == null && !stale
        invariant Sees(accs, snaps, load, now) && Members() <= accs
        invariant TiersPassed(here, tierIdx, exclude, snaps, load)
        invariant Turned(ix, tierIdx, curs, provenCurs0, cursors, provenCurs, exclude, snaps, load)
      {
        ghost var curs1, provenCurs1 := cursors, provenCurs;
        acc, stale := ScanTier(tierIdx, exclude, now, accs, snaps, load);
        TurnedStep(ix, tierIdx, curs, provenCurs0, curs1, provenCurs1, cursors, provenCurs, exclude, snaps, load);
        if acc != null || stale {
          if stale {
            MendedMeets(ix, tierIdx, curs1, provenCurs1, Slots(), exclude, snaps, load);
            MendedIsReached(here, tierIdx, Slots(), exclude, snaps, load);
            SameTurnMended(ix, tierIdx, curs, provenCurs0, curs1, provenCurs1, Slots(), exclude, snaps, load);
          } else {
            PickedIsChosen(ix, tierIdx, curs1, provenCurs1, acc, exclude, snaps, load);
            SameTurn(ix, tierIdx, curs, provenCurs0, curs1, provenCurs1, acc, exclude, snaps, load);
          }
          TurnedStops(ix, tierIdx, curs, provenCurs0, cursors, provenCurs, exclude, snaps, load);
          return;
        }
      }
    }

    /** The restart loop. Every restart has repaired one stale entry, and a repaired entry is fresh,
        so the set of stale entries shrinks. */
    method ScanUntilFresh(exclude: set<int>, now: Instant,
                          ghost accs: set<Account>, ghost snaps: map<Account, Snapshot>, ghost load: map<Account, int>)
      returns (acc: Account?)
      requires Valid() && Members() == accs && Sees(accs, snaps, load, now)
      modifies `buckets, `positions, `provenBounds, `cursors, `provenCurs, accs`scoring,
               accs`activeRequests, accs`totalRequests, accs`lastUsedAt
      ensures Valid()
      ensures Mended(old(Slots()), Slots(), snaps) && InReach(old(Slots()), Slots(), exclude, snaps, load)
      ensures acc == null ==>
                NothingUsable(old(Slots()), exclude, snaps, load) && TiersPassed(Slots(), 3, exclude, snaps, load)
      ensures acc == null ==> Sees(accs, snaps, load, now)
      ensures acc != null ==> acc in accs && Loaded(accs, acc, load) && Best(Slots(), acc, exclude, snaps, load)
      ensures ByTurn(old(Ix()), old(cursors), old(provenCurs), Ix(), cursors, provenCurs, accs, acc, exclude, snaps,
                     load)
    {
      hide SnapshotOf, RingOk, Account.Fresh, Account.State, WellFormed, Repaired;
      hide TiersPassed, Best, Mended, NothingUsable, Turned, TakenInTurn, MendedInTurn, InReach, Reached;
      hide TurnMet, TurnGone, ByTurn;
      ghost var ix, first, curs, provenCurs0 := Ix(), Slots(), cursors, provenCurs;
      SlotsOwned(Ix());
      forall id | id in first
        ensures Seen(first[id].entry.acc, snaps, load)
      {
        assert first[id].entry.acc in Members();
      }
      MendedSelf(first, snaps);
      UnchangedInReach(first, exclude, snaps, load);
      assert Proper(first, snaps, load);
      ghost var restarted := false;
      while true
        invariant Valid() && Sees(accs, snaps, load, now) && Members() <= accs
        invariant Mended(first, Slots(), snaps) && InReach(first, Slots(), exclude, snaps, load)
        invariant restarted || (Ix() == ix && cursors == curs && provenCurs == provenCurs0)
        invariant restarted ==> StaleIds(first, snaps) != {}
        invariant restarted ==> TurnGone(ix, curs, provenCurs0, accs, Slots(), exclude, snaps, load)
        decreases StaleIds(Slots(), snaps)
      {
        ghost var here := Slots();
        var stale: bool;
        acc, stale := ScanAll(exclude, now, accs, snaps, load);
        if !restarted {
          OnlyOutcome(ix, curs, provenCurs0, accs, acc, stale, Slots(), exclude, snaps, load);
        }
        if acc != null {
          ByTurnHolds(ix, curs, provenCurs0, Ix(), cursors, provenCurs, accs, acc, exclude, snaps, load);
          return;
        }
        if !stale {
          SlotsOwned(Ix());
          NilMeansNothing(first, here, exclude, snaps, load);
          ByTurnHolds(ix, curs, provenCurs0, Ix(), cursors, provenCurs, accs, acc, exclude, snaps, load);
          return;
        }
        ghost var id :| Repaired(here, id, Slots(), snaps) && Reached(here, id, exclude, snaps, load);
        RepairedWasStale(first, here, id, Slots(), snaps);
        ReachStep(first, here, id, Slots(), exclude, snaps, load);
        MendedStep(first, here, id, Slots(), snaps);
        if restarted {
          TurnGoneStays(ix, curs, provenCurs0, accs, here, id, Slots(), exclude, snaps, load);
        }
        restarted := true;
        MendedMembers(first, Slots(), snaps);
      }
    }

    /** Hands out the next account that is not excluded. */
    method AcquireExcluding(exclude: set<int>, now: Instant) returns (acc: Account?)
      requires Valid() && forall a | a in Members() :: a.Valid()
      modifies `buckets, `positions, `provenBounds, `cursors, `provenCurs, Members()`scoring,
               Members()`activeRequests, Members()`totalRequests, Members()`lastUsedAt
      ensures Valid()
      ensures Acquired(old(Slots()), Slots(), acc, exclude, old(Snaps(now)), old(Loads()))
      ensures acc == null ==> Unloaded(old(Members()), old(Loads()))
      ensures acc != null ==> acc in old(Members()) && Loaded(old(Members()), acc, old(Loads()))
      ensures ByTurn(old(Ix()), old(cursors), old(provenCurs), Ix(), cursors, provenCurs, old(Members()), acc,
                     exclude, old(Snaps(now)), old(Loads()))
      ensures acc != null && old(StaleIds(Slots(), Snaps(now)) == {} && FromTheTop(Ix(), cursors, provenCurs)) ==>
        TopOfTier(old(Slots()), acc, exclude, old(Snaps(now)), old(Loads()))
    {
      hide SnapshotOf, RingOk, Account.Fresh, Account.State, WellFormed, TiersPassed, Best, Mended, NothingUsable;
      hide InReach, TakenInTurn, TopOfTier, FromTheTop, StaleIds, Turned;
      ghost var snaps, load, accs := Snaps(now), Loads(), Members();
      ghost var ix, curs, proven := Ix(), cursors, provenCurs;
      acc := ScanUntilFresh(exclude, now, accs, snaps, load);
      if acc != null && StaleIds(Contents(ix), snaps) == {} && FromTheTop(ix, curs, proven) {
        TakenFromTop(ix, curs, proven, acc, exclude, snaps, load);
      }
    }
  }
}
