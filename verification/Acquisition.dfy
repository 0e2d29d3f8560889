/** What one acquisition from the scheduler's index means: which entries a scan passes, repairs or hands out, in
    which order it comes to them, and what all of that says about the account handed out. */
module Acquisition {
  import opened Accounts
  import opened SchedulerIndex
  import opened Wrappers

  // ---------------------------------------------------------------- what a scan makes of an entry

  predicate Stale(slot: Slot, s: Snapshot) {
    s.tier != slot.tier || s.proven != slot.entry.proven
    || (if s.score >= slot.entry.score then s.score - slot.entry.score else slot.entry.score - s.score) >= 1.0
  }

  predicate Usable(s: Snapshot, active: int) {
    s.available && 0 < s.limit && active < s.limit
  }

  /** An entry that a scan may hand out. */
  ghost predicate Offered(slot: Slot, exclude: set<int>, snaps: map<Account, Snapshot>, load: map<Account, int>) {
    var a := slot.entry.acc;
    slot.entry.dbID !in exclude && a in snaps && a in load && !Stale(slot, snaps[a]) && Usable(snaps[a], load[a])
  }

  /** A scan steps over an entry that is excluded, or whose account is as cached but unavailable or full. */
  ghost predicate Passed(slot: Slot, exclude: set<int>, snaps: map<Account, Snapshot>, load: map<Account, int>) {
    var a := slot.entry.acc;
    slot.entry.dbID in exclude || (a in snaps && a in load && !Stale(slot, snaps[a]) && !Usable(snaps[a], load[a]))
  }

  lemma OfferedIsNotPassed(slot: Slot, exclude: set<int>, snaps: map<Account, Snapshot>, load: map<Account, int>)
    requires Offered(slot, exclude, snaps, load)
    ensures !Passed(slot, exclude, snaps, load)
  {
  }

  /** Every entry of tier `t` (every proven one, if only those are asked for) was passed over. */
  ghost predicate TierPassed(c: map<int, Slot>, t: Tier, provenOnly: bool, exclude: set<int>,
                             snaps: map<Account, Snapshot>, load: map<Account, int>) {
    forall id | id in c && c[id].tier == t && (provenOnly ==> c[id].entry.proven) :: Passed(c[id], exclude, snaps, load)
  }

  ghost predicate TiersPassed(c: map<int, Slot>, n: nat, exclude: set<int>, snaps: map<Account, Snapshot>,
                              load: map<Account, int>)
    requires n <= 3
  {
    forall k | 0 <= k < n :: TierPassed(c, TIER_ORDER[k], false, exclude, snaps, load)
  }

  lemma TierPassedAt(c: map<int, Slot>, id: int, exclude: set<int>, snaps: map<Account, Snapshot>,
                     load: map<Account, int>)
    requires id in c && TierPassed(c, c[id].tier, false, exclude, snaps, load)
    ensures Passed(c[id], exclude, snaps, load)
  {
  }

  /** `acc` is on offer in tier `t`, and is proven unless every proven entry of the tier was passed over. */
  ghost predicate Chosen(c: map<int, Slot>, t: Tier, acc: Account, exclude: set<int>,
                         snaps: map<Account, Snapshot>, load: map<Account, int>) {
    && acc.dbID in c && c[acc.dbID].tier == t && c[acc.dbID].entry.acc == acc && c[acc.dbID].entry.dbID == acc.dbID
    && Offered(c[acc.dbID], exclude, snaps, load)
    && (!c[acc.dbID].entry.proven ==> TierPassed(c, t, true, exclude, snaps, load))
  }

  /** `acc` was chosen in the best tier that still had an account to offer. */
  ghost predicate Best(c: map<int, Slot>, acc: Account, exclude: set<int>, snaps: map<Account, Snapshot>,
                       load: map<Account, int>) {
    exists tierIdx: nat | tierIdx < 3 ::
      Chosen(c, TIER_ORDER[tierIdx], acc, exclude, snaps, load) && TiersPassed(c, tierIdx, exclude, snaps, load)
  }

  // ---------------------------------------------------------------- scanning a range

  /** The order in which a scan of `range` visits it: from `start` to the end, then from the beginning. */
  function ScanOrder(range: seq<Entry>, start: nat): (order: seq<Entry>)
    requires start <= |range|
    ensures |order| == |range|
  {
    range[start..] + range[..start]
  }

  function Cyclic(start: nat, offset: nat, n: nat): (i: nat)
    requires n > 0
    ensures i < n
  {
    (start + offset) % n
  }

  lemma MulOrder(n: nat, a: nat, b: nat)
    requires a <= b
    ensures n * a <= n * b
  {
  }

  lemma CyclicAt(start: nat, offset: nat, n: nat)
    requires start < n && offset < n
    ensures Cyclic(start, offset, n) == if start + offset < n then start + offset else start + offset - n
  {
    var x := start + offset;
    var q, r := x / n, x % n;
    assert x == n * q + r;
    if q >= 2 {
      MulOrder(n, 2, q);
    } else if q == 1 {
      assert n * q == n;
    } else {
      assert n * q == 0 by { assert q == 0; }
    }
  }

  lemma ScanOrderAt(range: seq<Entry>, start: nat, offset: nat)
    requires start < |range| && offset < |range|
    ensures ScanOrder(range, start)[offset] == range[Cyclic(start, offset, |range|)]
  {
    CyclicAt(start, offset, |range|);
  }

  /** A scan that has passed all of its order has passed the whole range. */
  lemma OrderCoversRange(range: seq<Entry>, start: nat, tier: Tier, exclude: set<int>,
                         snaps: map<Account, Snapshot>, load: map<Account, int>)
    requires start < |range|
    requires forall k | 0 <= k < |range| :: Passed(Slot(tier, ScanOrder(range, start)[k]), exclude, snaps, load)
    ensures forall i | 0 <= i < |range| :: Passed(Slot(tier, range[i]), exclude, snaps, load)
  {
    hide Passed;
    forall i | 0 <= i < |range|
      ensures Passed(Slot(tier, range[i]), exclude, snaps, load)
    {
      assert range[i] == ScanOrder(range, start)[if i >= start then i - start else i - start + |range|];
    }
  }

  ghost predicate PickedFrom(order: seq<Entry>, tier: Tier, acc: Account, exclude: set<int>,
                             snaps: map<Account, Snapshot>, load: map<Account, int>) {
    exists k ::
      && 0 <= k < |order| && order[k].acc == acc
      && Offered(Slot(tier, order[k]), exclude, snaps, load)
      && forall j | 0 <= j < k :: Passed(Slot(tier, order[j]), exclude, snaps, load)
  }

  /** The scan picked the first entry, in its order from the cursor on, that it did not pass. */
  ghost predicate Picked(range: seq<Entry>, cursor: nat, tier: Tier, acc: Account, exclude: set<int>,
                         snaps: map<Account, Snapshot>, load: map<Account, int>) {
    range != [] && PickedFrom(ScanOrder(range, Cyclic(cursor, 0, |range|)), tier, acc, exclude, snaps, load)
  }

  lemma ProvenTierPassed(ix: Index, tierIdx: nat, exclude: set<int>, snaps: map<Account, Snapshot>,
                         load: map<Account, int>)
    requires WellFormed(ix) && tierIdx < 3
    requires var t := TIER_ORDER[tierIdx];
             forall i | 0 <= i < ix.provenBounds[tierIdx] && i < |ix.buckets[t]| ::
               Passed(Slot(t, ix.buckets[t][i]), exclude, snaps, load)
    ensures TierPassed(Contents(ix), TIER_ORDER[tierIdx], true, exclude, snaps, load)
  {
    hide Passed;
    ProvenBound(ix, tierIdx);
    forall id | id in ix.positions
      ensures Placed(ix, id)
    {
    }
  }

  lemma WholeTierPassed(ix: Index, t: Tier, exclude: set<int>, snaps: map<Account, Snapshot>, load: map<Account, int>)
    requires WellFormed(ix) && t in INDEXED
    requires forall i | 0 <= i < |ix.buckets[t]| :: Passed(Slot(t, ix.buckets[t][i]), exclude, snaps, load)
    ensures TierPassed(Contents(ix), t, false, exclude, snaps, load)
  {
    hide Passed;
    forall id | id in ix.positions
      ensures Placed(ix, id)
    {
    }
  }

  lemma PickedEntry(ix: Index, t: Tier, range: seq<Entry>, cursor: nat, acc: Account, exclude: set<int>,
                    snaps: map<Account, Snapshot>, load: map<Account, int>) returns (e: Entry)
    requires WellFormed(ix) && t in INDEXED && (forall i | 0 <= i < |range| :: range[i] in ix.buckets[t])
    requires Picked(range, cursor, t, acc, exclude, snaps, load)
    ensures e in range && acc.dbID in Contents(ix) && Contents(ix)[acc.dbID] == Slot(t, e) && e.acc == acc
    ensures e.dbID == acc.dbID
    ensures Offered(Slot(t, e), exclude, snaps, load)
  {
    hide Offered, Passed, Cyclic;
    var order := ScanOrder(range, Cyclic(cursor, 0, |range|));
    var k :| 0 <= k < |order| && order[k].acc == acc && Offered(Slot(t, order[k]), exclude, snaps, load);
    e := order[k];
    EntryListed(ix, t, e);
  }

  /** Exactly one request was added, to `acc`. */
  ghost predicate Loaded(accs: set<Account>, acc: Account, load: map<Account, int>)
    reads accs
  {
    forall a | a in accs :: a in load && a.activeRequests == load[a] + (if a == acc then 1 else 0)
  }

  /** No request was added. */
  ghost predicate Unloaded(accs: set<Account>, load: map<Account, int>)
    reads accs
  {
    forall a | a in accs :: a in load && a.activeRequests == load[a]
  }

  /** A cached entry is still good exactly when tier and proof are those of the snapshot and the scores differ by less
      than one. */
  lemma StaleExactly(slot: Slot, s: Snapshot)
    ensures !Stale(slot, s) <==>
      && s.tier == slot.tier && s.proven == slot.entry.proven
      && slot.entry.score - 1.0 < s.score < slot.entry.score + 1.0
  {
  }

  // ---------------------------------------------------------------- repairs

  predicate Seen(a: Account, snaps: map<Account, Snapshot>, load: map<Account, int>) {
    a in snaps && a in load && (snaps[a].available ==> snaps[a].limit > 0 && snaps[a].tier in INDEXED)
  }

  /** Entry `id` was stale; it has left its slot for the one its snapshot wants, if any. */
  ghost predicate Repaired(c: map<int, Slot>, id: int, c': map<int, Slot>, snaps: map<Account, Snapshot>) {
    && id in c
    && c[id].entry.acc in snaps
    && Stale(c[id], snaps[c[id].entry.acc])
    && c' == Apply(c, id, WantedSlot(c[id].entry.acc, snaps[c[id].entry.acc]))
  }

  ghost function StaleIds(c: map<int, Slot>, snaps: map<Account, Snapshot>): set<int> {
    set id | id in c && c[id].entry.acc in snaps && Stale(c[id], snaps[c[id].entry.acc])
  }

  /** How acquiring may change the index: a stale entry may move to the slot its snapshot wants, or leave. */
  ghost predicate Mended(c: map<int, Slot>, c': map<int, Slot>, snaps: map<Account, Snapshot>) {
    forall id | id in c || id in c' ::
      && id in c && c[id].entry.acc in snaps
      && (if id in c' && c'[id] == c[id] then true
          else
            && Stale(c[id], snaps[c[id].entry.acc])
            && WantedSlot(c[id].entry.acc, snaps[c[id].entry.acc]) == if id in c' then Some(c'[id]) else None)
  }

  lemma MendedSelf(c: map<int, Slot>, snaps: map<Account, Snapshot>)
    requires forall id | id in c :: c[id].entry.acc in snaps
    ensures Mended(c, c, snaps)
  {
  }

  /** An account is filed exactly when it has an id, one of the three tiers and could be used while idle, and then
      just as its snapshot says. */
  lemma WantedIsFresh(a: Account, s: Snapshot)
    ensures WantedSlot(a, s).Some? ==> !Stale(WantedSlot(a, s).value, s) && WantedSlot(a, s).value.entry.acc == a
    ensures WantedSlot(a, s).Some? ==>
      WantedSlot(a, s).value.entry.score == s.score && WantedSlot(a, s).value.entry.dbID == a.dbID
    ensures WantedSlot(a, s).Some? <==> a.dbID != 0 && s.tier in {Healthy, Warm, Risky} && Usable(s, 0)
  {
  }

  /** One repair keeps the index mended, and leaves strictly fewer stale entries. */
  lemma MendedStep(first: map<int, Slot>, c: map<int, Slot>, id: int, c': map<int, Slot>, snaps: map<Account, Snapshot>)
    requires Mended(first, c, snaps) && Repaired(c, id, c', snaps)
    ensures Mended(first, c', snaps)
    ensures StaleIds(c', snaps) < StaleIds(c, snaps)
  {
    hide Stale, WantedSlot;
    var a := c[id].entry.acc;
    WantedIsFresh(a, snaps[a]);
    WantedIsFresh(first[id].entry.acc, snaps[first[id].entry.acc]);
    assert c[id] == first[id];
    assert id in StaleIds(c, snaps) && id !in StaleIds(c', snaps);
    assert forall other | other in c' && other != id :: other in c && c'[other] == c[other];
  }

  lemma MendedMembers(first: map<int, Slot>, c: map<int, Slot>, snaps: map<Account, Snapshot>)
    requires Mended(first, c, snaps)
    ensures forall id | id in c :: id in first && c[id].entry.acc == first[id].entry.acc
  {
  }

  /** The turn in which a scan comes to an entry: tier by tier, and within a tier the proven ones first. */
  function TurnOf(tier: Tier, proven: bool): int {
    2 * (3 - TierRank(tier)) + if proven then 0 else 1
  }

  function Turn(slot: Slot): int {
    TurnOf(slot.tier, slot.entry.proven)
  }

  /** An indexed account that could be handed out. */
  ghost predicate Eligible(c: map<int, Slot>, id: int, exclude: set<int>, snaps: map<Account, Snapshot>,
                           load: map<Account, int>) {
    && id in c && id !in exclude
    && var a := c[id].entry.acc; a in snaps && a in load && Usable(snaps[a], load[a])
  }

  /** The turn of the entry that the account of `id` gets from its snapshot. */
  ghost function SnapTurn(c: map<int, Slot>, id: int, snaps: map<Account, Snapshot>): int
    requires id in c && c[id].entry.acc in snaps
  {
    var s := snaps[c[id].entry.acc];
    TurnOf(s.tier, s.proven)
  }

  /** A scan of tier `t` comes to entry `id` and does not pass over it: when it is unproven, every proven one was
      passed. */
  ghost predicate MetIn(c: map<int, Slot>, t: Tier, id: int, exclude: set<int>, snaps: map<Account, Snapshot>,
                        load: map<Account, int>) {
    && id in c && id !in exclude && c[id].tier == t && c[id].entry.dbID == id
    && (!c[id].entry.proven ==> TierPassed(c, t, true, exclude, snaps, load))
  }

  /** A scan reaches entry `id`: everything that has its turn before was passed. */
  ghost predicate Reached(c: map<int, Slot>, id: int, exclude: set<int>, snaps: map<Account, Snapshot>,
                          load: map<Account, int>) {
    && id in c && id !in exclude
    && forall other | other in c && Turn(c[other]) < Turn(c[id]) :: Passed(c[other], exclude, snaps, load)
  }

  lemma ReachedInTier(c: map<int, Slot>, tierIdx: nat, id: int, exclude: set<int>, snaps: map<Account, Snapshot>,
                      load: map<Account, int>)
    requires forall other | other in c :: c[other].tier in INDEXED
    requires tierIdx < 3 && TiersPassed(c, tierIdx, exclude, snaps, load)
    requires MetIn(c, TIER_ORDER[tierIdx], id, exclude, snaps, load)
    ensures Reached(c, id, exclude, snaps, load)
  {
    hide Passed;
    assert TIER_ORDER[0] == Healthy && TIER_ORDER[1] == Warm && TIER_ORDER[2] == Risky;
    assert forall k | 0 <= k < tierIdx :: TierPassed(c, TIER_ORDER[k], false, exclude, snaps, load);
  }

  /** An account that could be handed out has its turn before `turn`, where it stands and where its snapshot puts it. */
  ghost predicate Ahead(c: map<int, Slot>, id: int, turn: int, exclude: set<int>, snaps: map<Account, Snapshot>,
                        load: map<Account, int>) {
    Eligible(c, id, exclude, snaps, load) && Turn(c[id]) < turn && SnapTurn(c, id, snaps) < turn
  }

  ghost predicate Changed(c: map<int, Slot>, c': map<int, Slot>, id: int) {
    id in c && !(id in c' && c'[id] == c[id])
  }

  /** No repair is made behind an account that could be handed out. */
  ghost predicate InReach(c: map<int, Slot>, c': map<int, Slot>, exclude: set<int>, snaps: map<Account, Snapshot>,
                          load: map<Account, int>) {
    forall id | Changed(c, c', id) ::
      id !in exclude && forall other | other in c :: !Ahead(c, other, Turn(c[id]), exclude, snaps, load)
  }

  ghost predicate Proper(c: map<int, Slot>, snaps: map<Account, Snapshot>, load: map<Account, int>) {
    forall id | id in c ::
      && c[id].tier in INDEXED && c[id].entry.acc.dbID == c[id].entry.dbID == id != 0
      && Seen(c[id].entry.acc, snaps, load)
  }

  /** An account that could be handed out stays in a mended index, and is never passed. */
  lemma EligibleStays(first: map<int, Slot>, c: map<int, Slot>, id: int, exclude: set<int>,
                      snaps: map<Account, Snapshot>, load: map<Account, int>)
    requires Proper(first, snaps, load) && Mended(first, c, snaps) && Eligible(first, id, exclude, snaps, load)
    ensures id in c && c[id].entry.acc == first[id].entry.acc && c[id].entry.dbID == id
    ensures !Passed(c[id], exclude, snaps, load)
    ensures c[id] == first[id]
      || (Stale(first[id], snaps[first[id].entry.acc]) && Turn(c[id]) == SnapTurn(first, id, snaps)
                                   && c[id].tier == snaps[first[id].entry.acc].tier)
  {
    hide Stale;
  }

  /** An entry that is still stale has not been repaired. */
  lemma StaleIsUntouched(first: map<int, Slot>, c: map<int, Slot>, id: int, snaps: map<Account, Snapshot>)
    requires Mended(first, c, snaps) && id in c && c[id].entry.acc in snaps && Stale(c[id], snaps[c[id].entry.acc])
    ensures id in first && c[id] == first[id]
  {
    WantedIsFresh(first[id].entry.acc, snaps[first[id].entry.acc]);
    hide Stale;
  }

  lemma ReachStep(first: map<int, Slot>, c: map<int, Slot>, id: int, c': map<int, Slot>, exclude: set<int>,
                  snaps: map<Account, Snapshot>, load: map<Account, int>)
    requires Proper(first, snaps, load) && Mended(first, c, snaps) && InReach(first, c, exclude, snaps, load)
    requires Repaired(c, id, c', snaps) && Reached(c, id, exclude, snaps, load)
    ensures InReach(first, c', exclude, snaps, load)
  {
    hide Stale, Passed, Turn, Proper;
    StaleIsUntouched(first, c, id, snaps);
    forall x | Changed(first, c', x)
      ensures x !in exclude && forall other | other in first ::
        !Ahead(first, other, Turn(first[x]), exclude, snaps, load)
    {
      if x == id {
        forall other | other in first
          ensures !Ahead(first, other, Turn(first[x]), exclude, snaps, load)
        {
          if Ahead(first, other, Turn(first[x]), exclude, snaps, load) {
            EligibleStays(first, c, other, exclude, snaps, load);
          }
        }
      } else {
        assert Changed(first, c, x);
      }
    }
  }

  lemma UnchangedInReach(c: map<int, Slot>, exclude: set<int>, snaps: map<Account, Snapshot>, load: map<Account, int>)
    ensures InReach(c, c, exclude, snaps, load)
  {
  }

  lemma RepairedWasStale(first: map<int, Slot>, c: map<int, Slot>, id: int, c': map<int, Slot>,
                         snaps: map<Account, Snapshot>)
    requires Mended(first, c, snaps) && Repaired(c, id, c', snaps)
    ensures id in StaleIds(first, snaps)
  {
    StaleIsUntouched(first, c, id, snaps);
  }

  // ---------------------------------------------------------------- one pass and its cursors

  ghost predicate MendsEntry(c: map<int, Slot>, e: Entry, tier: Tier, c': map<int, Slot>, exclude: set<int>,
                             snaps: map<Account, Snapshot>) {
    e.dbID !in exclude && e.dbID in c && c[e.dbID] == Slot(tier, e) && Repaired(c, e.dbID, c', snaps)
  }

  ghost predicate MendsFrom(c: map<int, Slot>, order: seq<Entry>, tier: Tier, c': map<int, Slot>, exclude: set<int>,
                            snaps: map<Account, Snapshot>, load: map<Account, int>) {
    exists k ::
      && 0 <= k < |order| && MendsEntry(c, order[k], tier, c', exclude, snaps)
      && forall j | 0 <= j < k :: Passed(Slot(tier, order[j]), exclude, snaps, load)
  }

  /** The scan met a stale entry, the first in its order that it did not pass, and repaired it. */
  ghost predicate Mends(c: map<int, Slot>, range: seq<Entry>, cursor: nat, tier: Tier, c': map<int, Slot>,
                        exclude: set<int>, snaps: map<Account, Snapshot>, load: map<Account, int>) {
    range != [] && MendsFrom(c, ScanOrder(range, Cyclic(cursor, 0, |range|)), tier, c', exclude, snaps, load)
  }

  /** The first entry in the order that is not passed is the one picked, or repaired. */
  lemma FirstPicked(range: seq<Entry>, cursor: nat, offset: nat, tier: Tier, acc: Account, exclude: set<int>,
                    snaps: map<Account, Snapshot>, load: map<Account, int>)
    requires offset < |range|
    requires var order := ScanOrder(range, Cyclic(cursor, 0, |range|));
      && order[offset].acc == acc && Offered(Slot(tier, order[offset]), exclude, snaps, load)
      && forall j | 0 <= j < offset :: Passed(Slot(tier, order[j]), exclude, snaps, load)
    ensures Picked(range, cursor, tier, acc, exclude, snaps, load)
  {
    hide Offered, Passed, Cyclic, ScanOrder;
  }

  lemma FirstMended(c: map<int, Slot>, range: seq<Entry>, cursor: nat, offset: nat, tier: Tier, c': map<int, Slot>,
                    exclude: set<int>, snaps: map<Account, Snapshot>, load: map<Account, int>)
    requires offset < |range|
    requires var order := ScanOrder(range, Cyclic(cursor, 0, |range|));
      && MendsEntry(c, order[offset], tier, c', exclude, snaps)
      && forall j | 0 <= j < offset :: Passed(Slot(tier, order[j]), exclude, snaps, load)
    ensures Mends(c, range, cursor, tier, c', exclude, snaps, load)
  {
    hide MendsEntry, Passed, Cyclic, ScanOrder;
  }

  /** A scan of tier `t` met a stale entry and repaired it. */
  ghost predicate MendsInTier(c: map<int, Slot>, t: Tier, c': map<int, Slot>, exclude: set<int>,
                              snaps: map<Account, Snapshot>, load: map<Account, int>) {
    exists id :: Repaired(c, id, c', snaps) && MetIn(c, t, id, exclude, snaps, load)
  }

  lemma MendedEntry(c: map<int, Slot>, range: seq<Entry>, cursor: nat, t: Tier, c': map<int, Slot>, exclude: set<int>,
                    snaps: map<Account, Snapshot>, load: map<Account, int>) returns (e: Entry)
    requires Mends(c, range, cursor, t, c', exclude, snaps, load)
    ensures e in range && MendsEntry(c, e, t, c', exclude, snaps)
  {
    hide Passed, MendsEntry, Cyclic;
    var order := ScanOrder(range, Cyclic(cursor, 0, |range|));
    var k :| 0 <= k < |order| && MendsEntry(c, order[k], t, c', exclude, snaps);
    e := order[k];
  }

  lemma StaleIsNotPassed(c: map<int, Slot>, id: int, c': map<int, Slot>, exclude: set<int>,
                         snaps: map<Account, Snapshot>, load: map<Account, int>)
    requires Repaired(c, id, c', snaps) && id !in exclude && c[id].entry.dbID == id
    ensures !Passed(c[id], exclude, snaps, load)
  {
  }

  /** The scan of a tier: the proven prefix from its cursor, and when that is passed the whole bucket from the other. */
  ghost predicate PickedInTier(ix: Index, tierIdx: nat, curs: seq<nat>, provenCurs: seq<nat>, acc: Account,
                               exclude: set<int>, snaps: map<Account, Snapshot>, load: map<Account, int>)
    requires WellFormed(ix) && tierIdx < 3 && |curs| == 3 && |provenCurs| == 3
  {
    var t := TIER_ORDER[tierIdx];
    var bucket, bound := ix.buckets[t], ix.provenBounds[tierIdx];
    if TierPassed(Contents(ix), t, true, exclude, snaps, load)
    then Picked(bucket[0..|bucket|], curs[tierIdx], t, acc, exclude, snaps, load)
    else bound <= |bucket| && Picked(bucket[0..bound], provenCurs[tierIdx], t, acc, exclude, snaps, load)
  }

  /** The scan of a tier met a stale entry, in the same order, and repaired it. */
  ghost predicate MendedInTier(ix: Index, tierIdx: nat, curs: seq<nat>, provenCurs: seq<nat>, c': map<int, Slot>,
                               exclude: set<int>, snaps: map<Account, Snapshot>, load: map<Account, int>)
    requires WellFormed(ix) && tierIdx < 3 && |curs| == 3 && |provenCurs| == 3
  {
    var t, c := TIER_ORDER[tierIdx], Contents(ix);
    var bucket, bound := ix.buckets[t], ix.provenBounds[tierIdx];
    if TierPassed(c, t, true, exclude, snaps, load)
    then Mends(c, bucket[0..|bucket|], curs[tierIdx], t, c', exclude, snaps, load)
    else bound <= |bucket| && Mends(c, bucket[0..bound], provenCurs[tierIdx], t, c', exclude, snaps, load)
  }

  ghost function Bump(cur: nat, turned: bool): nat {
    if turned then cur + 1 else cur
  }

  /** The cursors after a scan of one tier: each of its ranges that was scanned moves its own cursor on by one. */
  ghost predicate TierTurned(ix: Index, tierIdx: nat, curs: seq<nat>, provenCurs: seq<nat>, curs': seq<nat>,
                             provenCurs': seq<nat>, exclude: set<int>, snaps: map<Account, Snapshot>,
                             load: map<Account, int>)
    requires WellFormed(ix) && tierIdx < 3 && |curs| == 3 && |provenCurs| == 3
  {
    var t := TIER_ORDER[tierIdx];
    var whole := ix.buckets[t] != [] && TierPassed(Contents(ix), t, true, exclude, snaps, load);
    && curs' == curs[tierIdx := Bump(curs[tierIdx], whole)]
    && provenCurs' == provenCurs[tierIdx := Bump(provenCurs[tierIdx], ix.provenBounds[tierIdx] > 0)]
  }

  /** A scan that stops among the proven entries: they were not all passed, and only their cursor moves. */
  lemma StoppedAmongProven(ix: Index, tierIdx: nat, curs: seq<nat>, provenCurs: seq<nat>, e: Entry, exclude: set<int>,
                           snaps: map<Account, Snapshot>, load: map<Account, int>)
    requires WellFormed(ix) && tierIdx < 3 && |curs| == 3 && |provenCurs| == 3
    requires ix.provenBounds[tierIdx] <= |ix.buckets[TIER_ORDER[tierIdx]]|
    requires e in ix.buckets[TIER_ORDER[tierIdx]][0..ix.provenBounds[tierIdx]]
    requires !Passed(Slot(TIER_ORDER[tierIdx], e), exclude, snaps, load)
    ensures !TierPassed(Contents(ix), TIER_ORDER[tierIdx], true, exclude, snaps, load)
    ensures TierTurned(ix, tierIdx, curs, provenCurs, curs, provenCurs[tierIdx := provenCurs[tierIdx] + 1], exclude,
                       snaps, load)
  {
    hide Passed;
    var t := TIER_ORDER[tierIdx];
    var range := ix.buckets[t][0..ix.provenBounds[tierIdx]];
    ProvenBound(ix, tierIdx);
    var i :| 0 <= i < |range| && range[i] == e;
    assert ix.buckets[t][i].proven;
    EntryListed(ix, t, e);
    hide WellFormed, Contents;
  }

  lemma ProvenPicked(ix: Index, tierIdx: nat, curs: seq<nat>, provenCurs: seq<nat>, acc: Account, exclude: set<int>,
                     snaps: map<Account, Snapshot>, load: map<Account, int>)
    requires WellFormed(ix) && tierIdx < 3 && |curs| == 3 && |provenCurs| == 3
    requires ix.provenBounds[tierIdx] <= |ix.buckets[TIER_ORDER[tierIdx]]|
    requires Picked(ix.buckets[TIER_ORDER[tierIdx]][0..ix.provenBounds[tierIdx]], provenCurs[tierIdx],
                    TIER_ORDER[tierIdx], acc, exclude, snaps, load)
    ensures PickedInTier(ix, tierIdx, curs, provenCurs, acc, exclude, snaps, load)
    ensures TierTurned(ix, tierIdx, curs, provenCurs, curs, provenCurs[tierIdx := provenCurs[tierIdx] + 1], exclude,
                       snaps, load)
  {
    hide Picked, Offered, TierTurned, TierPassed;
    var t := TIER_ORDER[tierIdx];
    var e := PickedEntry(ix, t, ix.buckets[t][0..ix.provenBounds[tierIdx]], provenCurs[tierIdx], acc, exclude, snaps,
                         load);
    OfferedIsNotPassed(Slot(t, e), exclude, snaps, load);
    StoppedAmongProven(ix, tierIdx, curs, provenCurs, e, exclude, snaps, load);
  }

  lemma ProvenMended(ix: Index, tierIdx: nat, curs: seq<nat>, provenCurs: seq<nat>, c': map<int, Slot>,
                     exclude: set<int>, snaps: map<Account, Snapshot>, load: map<Account, int>)
    requires WellFormed(ix) && tierIdx < 3 && |curs| == 3 && |provenCurs| == 3
    requires ix.provenBounds[tierIdx] <= |ix.buckets[TIER_ORDER[tierIdx]]|
    requires Mends(Contents(ix), ix.buckets[TIER_ORDER[tierIdx]][0..ix.provenBounds[tierIdx]], provenCurs[tierIdx],
                   TIER_ORDER[tierIdx], c', exclude, snaps, load)
    ensures MendedInTier(ix, tierIdx, curs, provenCurs, c', exclude, snaps, load)
    ensures TierTurned(ix, tierIdx, curs, provenCurs, curs, provenCurs[tierIdx := provenCurs[tierIdx] + 1], exclude,
                       snaps, load)
  {
    hide Mends, Passed, Repaired, TierTurned, TierPassed;
    var t, c := TIER_ORDER[tierIdx], Contents(ix);
    var e := MendedEntry(c, ix.buckets[t][0..ix.provenBounds[tierIdx]], provenCurs[tierIdx], t, c', exclude, snaps,
                         load);
    StaleIsNotPassed(c, e.dbID, c', exclude, snaps, load);
    StoppedAmongProven(ix, tierIdx, curs, provenCurs, e, exclude, snaps, load);
  }

  /** A scan that has passed all proven entries goes on over the whole bucket. */
  lemma WholeScanned(ix: Index, tierIdx: nat, curs: seq<nat>, provenCurs: seq<nat>, provenCurs': seq<nat>,
                     exclude: set<int>, snaps: map<Account, Snapshot>, load: map<Account, int>)
    requires WellFormed(ix) && tierIdx < 3 && |curs| == 3 && |provenCurs| == 3
    requires ix.buckets[TIER_ORDER[tierIdx]] != []
    requires TierPassed(Contents(ix), TIER_ORDER[tierIdx], true, exclude, snaps, load)
    requires provenCurs' == if ix.provenBounds[tierIdx] > 0 then provenCurs[tierIdx := provenCurs[tierIdx] + 1]
      else provenCurs
    ensures TierTurned(ix, tierIdx, curs, provenCurs, curs[tierIdx := curs[tierIdx] + 1], provenCurs', exclude, snaps,
                       load)
  {
    hide TierPassed;
    assert provenCurs == provenCurs[tierIdx := provenCurs[tierIdx]];
  }

  lemma NothingScanned(ix: Index, tierIdx: nat, curs: seq<nat>, provenCurs: seq<nat>, exclude: set<int>,
                       snaps: map<Account, Snapshot>, load: map<Account, int>)
    requires WellFormed(ix) && tierIdx < 3 && |curs| == 3 && |provenCurs| == 3
    requires ix.buckets[TIER_ORDER[tierIdx]] == []
    ensures TierTurned(ix, tierIdx, curs, provenCurs, curs, provenCurs, exclude, snaps, load)
  {
    ProvenBound(ix, tierIdx);
  }

  /** An account picked in a tier is chosen there: it is on offer, and proven unless all proven ones were passed. */
  lemma PickedIsChosen(ix: Index, tierIdx: nat, curs: seq<nat>, provenCurs: seq<nat>, acc: Account, exclude: set<int>,
                       snaps: map<Account, Snapshot>, load: map<Account, int>)
    requires WellFormed(ix) && tierIdx < 3 && |curs| == 3 && |provenCurs| == 3
    requires PickedInTier(ix, tierIdx, curs, provenCurs, acc, exclude, snaps, load)
    ensures Chosen(Contents(ix), TIER_ORDER[tierIdx], acc, exclude, snaps, load)
    ensures !TierPassed(Contents(ix), TIER_ORDER[tierIdx], false, exclude, snaps, load)
  {
    hide Picked, Offered, Passed;
    var t := TIER_ORDER[tierIdx];
    var bucket, bound := ix.buckets[t], ix.provenBounds[tierIdx];
    ProvenBound(ix, tierIdx);
    if TierPassed(Contents(ix), t, true, exclude, snaps, load) {
      var e := PickedEntry(ix, t, bucket[0..|bucket|], curs[tierIdx], acc, exclude, snaps, load);
      OfferedIsNotPassed(Slot(t, e), exclude, snaps, load);
    } else {
      var e := PickedEntry(ix, t, bucket[0..bound], provenCurs[tierIdx], acc, exclude, snaps, load);
      var i :| 0 <= i < bound && bucket[0..bound][i] == e;
      assert bucket[i].proven;
      OfferedIsNotPassed(Slot(t, e), exclude, snaps, load);
    }
  }

  lemma MendedMeets(ix: Index, tierIdx: nat, curs: seq<nat>, provenCurs: seq<nat>, c': map<int, Slot>,
                    exclude: set<int>, snaps: map<Account, Snapshot>, load: map<Account, int>)
    requires WellFormed(ix) && tierIdx < 3 && |curs| == 3 && |provenCurs| == 3
    requires MendedInTier(ix, tierIdx, curs, provenCurs, c', exclude, snaps, load)
    ensures MendsInTier(Contents(ix), TIER_ORDER[tierIdx], c', exclude, snaps, load)
  {
    hide Mends, Passed, Repaired;
    var t, c := TIER_ORDER[tierIdx], Contents(ix);
    var bucket, bound := ix.buckets[t], ix.provenBounds[tierIdx];
    ProvenBound(ix, tierIdx);
    if TierPassed(c, t, true, exclude, snaps, load) {
      var e := MendedEntry(c, bucket[0..|bucket|], curs[tierIdx], t, c', exclude, snaps, load);
      assert MetIn(c, t, e.dbID, exclude, snaps, load);
    } else {
      var e := MendedEntry(c, bucket[0..bound], provenCurs[tierIdx], t, c', exclude, snaps, load);
      var i :| 0 <= i < bound && bucket[0..bound][i] == e;
      assert bucket[i].proven;
      assert MetIn(c, t, e.dbID, exclude, snaps, load);
    }
  }

  /** The cursors after one pass over the tiers: only tiers whose better ones were all passed are scanned. */
  ghost predicate Turned(ix: Index, n: nat, curs: seq<nat>, provenCurs: seq<nat>, curs': seq<nat>,
                         provenCurs': seq<nat>,
                         exclude: set<int>, snaps: map<Account, Snapshot>, load: map<Account, int>)
    requires WellFormed(ix) && n <= 3 && |curs| == 3 && |provenCurs| == 3
  {
    && |curs'| == 3 && |provenCurs'| == 3
    && (forall i | 0 <= i < n && TiersPassed(Contents(ix), i, exclude, snaps, load) ::
          var whole := ix.buckets[TIER_ORDER[i]] != []
            && TierPassed(Contents(ix), TIER_ORDER[i], true, exclude, snaps, load);
          curs'[i] == Bump(curs[i], whole) && provenCurs'[i] == Bump(provenCurs[i], ix.provenBounds[i] > 0))
    && (forall i | 0 <= i < 3 && (i >= n || !TiersPassed(Contents(ix), i, exclude, snaps, load)) ::
          curs'[i] == curs[i] && provenCurs'[i] == provenCurs[i])
  }

  lemma TurnedStep(ix: Index, n: nat, curs: seq<nat>, provenCurs: seq<nat>, curs1: seq<nat>, provenCurs1: seq<nat>,
                   curs2: seq<nat>, provenCurs2: seq<nat>, exclude: set<int>, snaps: map<Account, Snapshot>,
                   load: map<Account, int>)
    requires WellFormed(ix) && n < 3 && |curs| == 3 && |provenCurs| == 3
    requires Turned(ix, n, curs, provenCurs, curs1, provenCurs1, exclude, snaps, load)
    requires TiersPassed(Contents(ix), n, exclude, snaps, load)
    requires TierTurned(ix, n, curs1, provenCurs1, curs2, provenCurs2, exclude, snaps, load)
    ensures Turned(ix, n + 1, curs, provenCurs, curs2, provenCurs2, exclude, snaps, load)
  {
    hide WellFormed, Contents, TierPassed, TiersPassed;
  }

  /** A pass that stops in a tier has not scanned the worse ones. */
  lemma TurnedStops(ix: Index, n: nat, curs: seq<nat>, provenCurs: seq<nat>, curs': seq<nat>, provenCurs': seq<nat>,
                    exclude: set<int>, snaps: map<Account, Snapshot>, load: map<Account, int>)
    requires WellFormed(ix) && n < 3 && |curs| == 3 && |provenCurs| == 3
    requires Turned(ix, n + 1, curs, provenCurs, curs', provenCurs', exclude, snaps, load)
    requires !TierPassed(Contents(ix), TIER_ORDER[n], false, exclude, snaps, load)
    ensures Turned(ix, 3, curs, provenCurs, curs', provenCurs', exclude, snaps, load)
  {
    hide WellFormed, Contents, TierPassed;
    assert forall i | n < i < 3 :: !TiersPassed(Contents(ix), i, exclude, snaps, load);
  }

  lemma FirstOfAll(range: seq<Entry>, cursor: nat, tier: Tier, acc: Account, exclude: set<int>,
                   snaps: map<Account, Snapshot>, load: map<Account, int>)
    requires forall i | 0 <= i < |range| :: Offered(Slot(tier, range[i]), exclude, snaps, load)
    requires Picked(range, cursor, tier, acc, exclude, snaps, load)
    ensures acc == range[Cyclic(cursor, 0, |range|)].acc
  {
    hide Cyclic;
    var start := Cyclic(cursor, 0, |range|);
    var order := ScanOrder(range, start);
    assert order[0] == range[start];
    assert !Passed(Slot(tier, order[0]), exclude, snaps, load);
  }

  lemma CyclicSum(a: nat, k: nat, n: nat)
    requires n > 0
    ensures Cyclic(a + k, 0, n) == Cyclic(a, k, n) == (a + k) % n
  {
  }

  lemma ModIs(x: nat, n: nat, q: nat, r: nat)
    requires x == n * q + r && r < n
    ensures x % n == r
  {
    var p := x / n;
    assert x == n * p + x % n && n * (p + 1) == n * p + n && n * (q + 1) == n * q + n;
    if p < q {
      MulOrder(n, p + 1, q);
    } else if q < p {
      MulOrder(n, q + 1, p);
    }
  }

  lemma CyclicFrom(cursor: nat, k: nat, n: nat)
    requires k < n
    ensures var start := Cyclic(cursor, 0, n);
      Cyclic(cursor, k, n) == if start + k < n then start + k else start + k - n
  {
    var q, start := cursor / n, cursor % n;
    assert cursor == n * q + start;
    if start + k < n {
      ModIs(cursor + k, n, q, start + k);
    } else {
      assert n * (q + 1) == n * q + n;
      ModIs(cursor + k, n, q + 1, start + k - n);
    }
  }

  /** Round robin: while every entry of a range can be handed out, scans from consecutive cursors hand out consecutive
      accounts, and as many scans as there are entries hand out every one. */
  lemma RoundRobin(range: seq<Entry>, cursor: nat, tier: Tier, accs: seq<Account>, exclude: set<int>,
                   snaps: map<Account, Snapshot>, loads: seq<map<Account, int>>)
    requires range != [] && |loads| == |accs|
    requires forall k, i | 0 <= k < |accs| && 0 <= i < |range| ::
      Offered(Slot(tier, range[i]), exclude, snaps, loads[k])
    requires forall k | 0 <= k < |accs| :: Picked(range, cursor + k, tier, accs[k], exclude, snaps, loads[k])
    ensures forall k | 0 <= k < |accs| :: accs[k] == range[(cursor + k) % |range|].acc
    ensures |accs| == |range| ==> forall i | 0 <= i < |range| :: range[i].acc in accs
  {
    hide Offered, Passed, Cyclic;
    var n := |range|;
    forall k | 0 <= k < |accs|
      ensures Cyclic(cursor, k, n) == (cursor + k) % n && accs[k] == range[Cyclic(cursor, k, n)].acc
    {
      FirstOfAll(range, cursor + k, tier, accs[k], exclude, snaps, loads[k]);
      CyclicSum(cursor, k, n);
    }
    if |accs| == n {
      forall i | 0 <= i < n
        ensures range[i].acc in accs
      {
        var start := Cyclic(cursor, 0, n);
        var k := if i >= start then i - start else i - start + n;
        CyclicFrom(cursor, k, n);
        assert accs[k] == range[i].acc;
      }
    }
  }

  lemma MendedIsReached(c: map<int, Slot>, tierIdx: nat, c': map<int, Slot>, exclude: set<int>,
                        snaps: map<Account, Snapshot>, load: map<Account, int>)
    requires forall other | other in c :: c[other].tier in INDEXED
    requires tierIdx < 3 && TiersPassed(c, tierIdx, exclude, snaps, load)
    requires MendsInTier(c, TIER_ORDER[tierIdx], c', exclude, snaps, load)
    ensures exists id :: Repaired(c, id, c', snaps) && Reached(c, id, exclude, snaps, load)
    ensures !TierPassed(c, TIER_ORDER[tierIdx], false, exclude, snaps, load)
  {
    hide Repaired, TiersPassed, Passed, Reached;
    var id :| Repaired(c, id, c', snaps) && MetIn(c, TIER_ORDER[tierIdx], id, exclude, snaps, load);
    ReachedInTier(c, tierIdx, id, exclude, snaps, load);
    StaleIsNotPassed(c, id, c', exclude, snaps, load);
  }

  /** With nothing stale, an acquisition is decided by the cursors: the first tier that is not passed hands out the next
      account of its turn. */
  ghost predicate TakenInTurn(ix: Index, curs: seq<nat>, provenCurs: seq<nat>, acc: Account, exclude: set<int>,
                              snaps: map<Account, Snapshot>, load: map<Account, int>)
    requires WellFormed(ix) && |curs| == 3 && |provenCurs| == 3
  {
    exists tierIdx: nat | tierIdx < 3 ::
      && TiersPassed(Contents(ix), tierIdx, exclude, snaps, load)
      && PickedInTier(ix, tierIdx, curs, provenCurs, acc, exclude, snaps, load)
  }

  ghost predicate MendedInTurn(ix: Index, curs: seq<nat>, provenCurs: seq<nat>, c': map<int, Slot>, exclude: set<int>,
                               snaps: map<Account, Snapshot>, load: map<Account, int>)
    requires WellFormed(ix) && |curs| == 3 && |provenCurs| == 3
  {
    exists tierIdx: nat | tierIdx < 3 ::
      && TiersPassed(Contents(ix), tierIdx, exclude, snaps, load)
      && !TierPassed(Contents(ix), TIER_ORDER[tierIdx], false, exclude, snaps, load)
      && MendedInTier(ix, tierIdx, curs, provenCurs, c', exclude, snaps, load)
  }

  lemma PickedOnce(range: seq<Entry>, cursor: nat, t: Tier, a: Account, b: Account, exclude: set<int>,
                   snaps: map<Account, Snapshot>, load: map<Account, int>)
    requires Picked(range, cursor, t, a, exclude, snaps, load) && Picked(range, cursor, t, b, exclude, snaps, load)
    ensures a == b
  {
    hide Cyclic;
  }

  lemma PickedNotMended(range: seq<Entry>, cursor: nat, t: Tier, a: Account, c: map<int, Slot>, c': map<int, Slot>,
                        exclude: set<int>, snaps: map<Account, Snapshot>, load: map<Account, int>)
    requires Picked(range, cursor, t, a, exclude, snaps, load)
    ensures !Mends(c, range, cursor, t, c', exclude, snaps, load)
  {
    hide Cyclic;
  }

  lemma SamePick(ix: Index, tierIdx: nat, curs: seq<nat>, provenCurs: seq<nat>, a: Account, b: Account,
                 c': map<int, Slot>, exclude: set<int>, snaps: map<Account, Snapshot>, load: map<Account, int>)
    requires WellFormed(ix) && tierIdx < 3 && |curs| == 3 && |provenCurs| == 3
    requires PickedInTier(ix, tierIdx, curs, provenCurs, a, exclude, snaps, load)
    ensures PickedInTier(ix, tierIdx, curs, provenCurs, b, exclude, snaps, load) ==> a == b
    ensures !MendedInTier(ix, tierIdx, curs, provenCurs, c', exclude, snaps, load)
  {
    hide Picked, Mends, TierPassed;
    var t, c := TIER_ORDER[tierIdx], Contents(ix);
    var passed := TierPassed(c, t, true, exclude, snaps, load);
    var cursor := if passed then curs[tierIdx] else provenCurs[tierIdx];
    var range := ix.buckets[t][0..if passed then |ix.buckets[t]| else ix.provenBounds[tierIdx]];
    PickedNotMended(range, cursor, t, a, c, c', exclude, snaps, load);
    if PickedInTier(ix, tierIdx, curs, provenCurs, b, exclude, snaps, load) {
      PickedOnce(range, cursor, t, a, b, exclude, snaps, load);
    }
  }

  /** One pass has one outcome: the account that has its turn is the only one, and then nothing is repaired. */
  lemma OneOutcome(ix: Index, curs: seq<nat>, provenCurs: seq<nat>, a: Account, b: Account, c': map<int, Slot>,
                   exclude: set<int>, snaps: map<Account, Snapshot>, load: map<Account, int>)
    requires WellFormed(ix) && |curs| == 3 && |provenCurs| == 3
    requires TakenInTurn(ix, curs, provenCurs, a, exclude, snaps, load)
    ensures TakenInTurn(ix, curs, provenCurs, b, exclude, snaps, load) ==> a == b
    ensures !MendedInTurn(ix, curs, provenCurs, c', exclude, snaps, load)
    ensures !TiersPassed(Contents(ix), 3, exclude, snaps, load)
  {
    hide Picked, Mends, WellFormed, Contents, TierPassed, Chosen;
    var i: nat :| && i < 3 && TiersPassed(Contents(ix), i, exclude, snaps, load)
                  && PickedInTier(ix, i, curs, provenCurs, a, exclude, snaps, load);
    PickedIsChosen(ix, i, curs, provenCurs, a, exclude, snaps, load);
    if TakenInTurn(ix, curs, provenCurs, b, exclude, snaps, load) {
      var k: nat :| && k < 3 && TiersPassed(Contents(ix), k, exclude, snaps, load)
                    && PickedInTier(ix, k, curs, provenCurs, b, exclude, snaps, load);
      PickedIsChosen(ix, k, curs, provenCurs, b, exclude, snaps, load);
      SamePick(ix, i, curs, provenCurs, a, b, c', exclude, snaps, load);
    }
    if MendedInTurn(ix, curs, provenCurs, c', exclude, snaps, load) {
      var k: nat :| && k < 3 && TiersPassed(Contents(ix), k, exclude, snaps, load)
                    && !TierPassed(Contents(ix), TIER_ORDER[k], false, exclude, snaps, load)
                    && MendedInTier(ix, k, curs, provenCurs, c', exclude, snaps, load);
      SamePick(ix, i, curs, provenCurs, a, a, c', exclude, snaps, load);
    }
  }

  lemma TurnedNowhere(ix: Index, curs: seq<nat>, provenCurs: seq<nat>, exclude: set<int>, snaps: map<Account, Snapshot>,
                      load: map<Account, int>)
    requires WellFormed(ix) && |curs| == 3 && |provenCurs| == 3
    ensures Turned(ix, 0, curs, provenCurs, curs, provenCurs, exclude, snaps, load)
  {
  }

  /** The cursors of a tier are as they were when the pass came to it. */
  lemma SameTurn(ix: Index, tierIdx: nat, curs: seq<nat>, provenCurs: seq<nat>, curs1: seq<nat>, provenCurs1: seq<nat>,
                 acc: Account, exclude: set<int>, snaps: map<Account, Snapshot>, load: map<Account, int>)
    requires WellFormed(ix) && tierIdx < 3 && |curs| == 3 && |provenCurs| == 3
    requires Turned(ix, tierIdx, curs, provenCurs, curs1, provenCurs1, exclude, snaps, load)
    requires TiersPassed(Contents(ix), tierIdx, exclude, snaps, load)
    requires PickedInTier(ix, tierIdx, curs1, provenCurs1, acc, exclude, snaps, load)
    ensures TakenInTurn(ix, curs, provenCurs, acc, exclude, snaps, load)
  {
    hide WellFormed, Contents, TierPassed, TiersPassed, Picked;
    assert PickedInTier(ix, tierIdx, curs, provenCurs, acc, exclude, snaps, load);
  }

  lemma SameTurnMended(ix: Index, tierIdx: nat, curs: seq<nat>, provenCurs: seq<nat>, curs1: seq<nat>,
                       provenCurs1: seq<nat>,
                       c': map<int, Slot>, exclude: set<int>, snaps: map<Account, Snapshot>, load: map<Account, int>)
    requires WellFormed(ix) && tierIdx < 3 && |curs| == 3 && |provenCurs| == 3
    requires Turned(ix, tierIdx, curs, provenCurs, curs1, provenCurs1, exclude, snaps, load)
    requires TiersPassed(Contents(ix), tierIdx, exclude, snaps, load)
    requires !TierPassed(Contents(ix), TIER_ORDER[tierIdx], false, exclude, snaps, load)
    requires MendedInTier(ix, tierIdx, curs1, provenCurs1, c', exclude, snaps, load)
    ensures MendedInTurn(ix, curs, provenCurs, c', exclude, snaps, load)
  {
    hide WellFormed, Contents, TierPassed, TiersPassed, Mends;
    assert MendedInTier(ix, tierIdx, curs, provenCurs, c', exclude, snaps, load);
  }

  /** The scan of a range from the cursor stops at entry `id`: it is the first that is not passed. */
  ghost predicate StopsIn(range: seq<Entry>, cursor: nat, tier: Tier, id: int, exclude: set<int>,
                          snaps: map<Account, Snapshot>, load: map<Account, int>) {
    range != [] && StopsFrom(ScanOrder(range, Cyclic(cursor, 0, |range|)), tier, id, exclude, snaps, load)
  }

  ghost predicate StopsFrom(order: seq<Entry>, tier: Tier, id: int, exclude: set<int>, snaps: map<Account, Snapshot>,
                            load: map<Account, int>) {
    exists k ::
      && 0 <= k < |order| && order[k].dbID == id && !Passed(Slot(tier, order[k]), exclude, snaps, load)
      && forall j | 0 <= j < k :: Passed(Slot(tier, order[j]), exclude, snaps, load)
  }

  ghost predicate StopsInTier(ix: Index, tierIdx: nat, curs: seq<nat>, provenCurs: seq<nat>, id: int, exclude: set<int>,
                              snaps: map<Account, Snapshot>, load: map<Account, int>)
    requires WellFormed(ix) && tierIdx < 3 && |curs| == 3 && |provenCurs| == 3
  {
    var t := TIER_ORDER[tierIdx];
    var bucket, bound := ix.buckets[t], ix.provenBounds[tierIdx];
    if TierPassed(Contents(ix), t, true, exclude, snaps, load)
    then StopsIn(bucket[0..|bucket|], curs[tierIdx], t, id, exclude, snaps, load)
    else bound <= |bucket| && StopsIn(bucket[0..bound], provenCurs[tierIdx], t, id, exclude, snaps, load)
  }

  /** Told from the index and the cursors alone: the entry at which the first pass of an acquisition stops. */
  ghost predicate FirstStop(ix: Index, curs: seq<nat>, provenCurs: seq<nat>, id: int, exclude: set<int>,
                            snaps: map<Account, Snapshot>, load: map<Account, int>)
    requires WellFormed(ix) && |curs| == 3 && |provenCurs| == 3
  {
    exists tierIdx: nat | tierIdx < 3 ::
      && TiersPassed(Contents(ix), tierIdx, exclude, snaps, load)
      && StopsInTier(ix, tierIdx, curs, provenCurs, id, exclude, snaps, load)
  }

  lemma StoppedEntry(ix: Index, t: Tier, range: seq<Entry>, cursor: nat, id: int, exclude: set<int>,
                     snaps: map<Account, Snapshot>, load: map<Account, int>)
    requires WellFormed(ix) && t in INDEXED && (forall i | 0 <= i < |range| :: range[i] in ix.buckets[t])
    requires StopsIn(range, cursor, t, id, exclude, snaps, load)
    ensures id in Contents(ix) && Contents(ix)[id].tier == t && !Passed(Contents(ix)[id], exclude, snaps, load)
    ensures Offered(Contents(ix)[id], exclude, snaps, load) ==>
      Picked(range, cursor, t, Contents(ix)[id].entry.acc, exclude, snaps, load)
  {
    hide Passed, Offered, Cyclic;
    var order := ScanOrder(range, Cyclic(cursor, 0, |range|));
    var k :| && 0 <= k < |order| && order[k].dbID == id && !Passed(Slot(t, order[k]), exclude, snaps, load)
             && forall j | 0 <= j < k :: Passed(Slot(t, order[j]), exclude, snaps, load);
    assert order[k] in range && order[k] in ix.buckets[t];
    EntryListed(ix, t, order[k]);
  }

  lemma StopIsPicked(range: seq<Entry>, cursor: nat, t: Tier, id: int, acc: Account, exclude: set<int>,
                     snaps: map<Account, Snapshot>, load: map<Account, int>) returns (e: Entry)
    requires StopsIn(range, cursor, t, id, exclude, snaps, load) && Picked(range, cursor, t, acc, exclude, snaps, load)
    ensures e in range && e.dbID == id && e.acc == acc && Offered(Slot(t, e), exclude, snaps, load)
  {
    hide Cyclic;
    var order := ScanOrder(range, Cyclic(cursor, 0, |range|));
    var k :| && 0 <= k < |order| && order[k].dbID == id && !Passed(Slot(t, order[k]), exclude, snaps, load)
             && forall j | 0 <= j < k :: Passed(Slot(t, order[j]), exclude, snaps, load);
    e := order[k];
  }

  lemma StopIsMended(c: map<int, Slot>, range: seq<Entry>, cursor: nat, t: Tier, id: int, c': map<int, Slot>,
                     exclude: set<int>, snaps: map<Account, Snapshot>, load: map<Account, int>)
    requires StopsIn(range, cursor, t, id, exclude, snaps, load) && Mends(c, range, cursor, t, c', exclude, snaps, load)
    ensures Repaired(c, id, c', snaps)
  {
    hide Cyclic;
  }

  lemma StopEndsTier(ix: Index, tierIdx: nat, curs: seq<nat>, provenCurs: seq<nat>, id: int, exclude: set<int>,
                     snaps: map<Account, Snapshot>, load: map<Account, int>)
    requires WellFormed(ix) && tierIdx < 3 && |curs| == 3 && |provenCurs| == 3
    requires StopsInTier(ix, tierIdx, curs, provenCurs, id, exclude, snaps, load)
    ensures id in Contents(ix) && Contents(ix)[id].tier == TIER_ORDER[tierIdx]
    ensures !Passed(Contents(ix)[id], exclude, snaps, load)
    ensures !TierPassed(Contents(ix), TIER_ORDER[tierIdx], false, exclude, snaps, load)
    ensures Offered(Contents(ix)[id], exclude, snaps, load) ==>
      PickedInTier(ix, tierIdx, curs, provenCurs, Contents(ix)[id].entry.acc, exclude, snaps, load)
  {
    hide Passed, Offered, StopsIn, Picked;
    var t := TIER_ORDER[tierIdx];
    var bucket, bound := ix.buckets[t], ix.provenBounds[tierIdx];
    if TierPassed(Contents(ix), t, true, exclude, snaps, load) {
      StoppedEntry(ix, t, bucket[0..|bucket|], curs[tierIdx], id, exclude, snaps, load);
    } else {
      StoppedEntry(ix, t, bucket[0..bound], provenCurs[tierIdx], id, exclude, snaps, load);
    }
  }

  /** What the first pass does with the entry at which it stops: it hands out its account, or repairs it. */
  lemma StopOutcome(ix: Index, tierIdx: nat, curs: seq<nat>, provenCurs: seq<nat>, id: int, acc: Account?, stale: bool,
                    c': map<int, Slot>, exclude: set<int>, snaps: map<Account, Snapshot>, load: map<Account, int>)
    requires WellFormed(ix) && tierIdx < 3 && |curs| == 3 && |provenCurs| == 3
    requires TiersPassed(Contents(ix), tierIdx, exclude, snaps, load)
    requires StopsInTier(ix, tierIdx, curs, provenCurs, id, exclude, snaps, load)
    requires acc != null ==> TakenInTurn(ix, curs, provenCurs, acc, exclude, snaps, load)
    requires acc == null && stale ==> MendedInTurn(ix, curs, provenCurs, c', exclude, snaps, load)
    requires acc == null && !stale ==> TiersPassed(Contents(ix), 3, exclude, snaps, load)
    ensures id in Contents(ix)
    ensures acc != null ==> Offered(Contents(ix)[id], exclude, snaps, load)
    ensures acc == null ==> stale && Repaired(Contents(ix), id, c', snaps)
  {
    hide Picked, Mends, StopsIn, TierPassed, Passed, Offered;
    StopEndsTier(ix, tierIdx, curs, provenCurs, id, exclude, snaps, load);
    var t, c := TIER_ORDER[tierIdx], Contents(ix);
    var passed := TierPassed(c, t, true, exclude, snaps, load);
    var cursor := if passed then curs[tierIdx] else provenCurs[tierIdx];
    var range := ix.buckets[t][0..if passed then |ix.buckets[t]| else ix.provenBounds[tierIdx]];
    if acc != null {
      var k: nat :| && k < 3 && TiersPassed(c, k, exclude, snaps, load)
                    && PickedInTier(ix, k, curs, provenCurs, acc, exclude, snaps, load);
      PickedIsChosen(ix, k, curs, provenCurs, acc, exclude, snaps, load);
      assert k == tierIdx;
      var e := StopIsPicked(range, cursor, t, id, acc, exclude, snaps, load);
      EntryListed(ix, t, e);
    } else if stale {
      var k: nat :| && k < 3 && TiersPassed(c, k, exclude, snaps, load)
                    && !TierPassed(c, TIER_ORDER[k], false, exclude, snaps, load)
                    && MendedInTier(ix, k, curs, provenCurs, c', exclude, snaps, load);
      assert k == tierIdx;
      StopIsMended(c, range, cursor, t, id, c', exclude, snaps, load);
    } else {
      assert false;
    }
  }

  lemma RepairedChanges(c: map<int, Slot>, id: int, c': map<int, Slot>, snaps: map<Account, Snapshot>)
    requires Repaired(c, id, c', snaps)
    ensures Changed(c, c', id)
  {
    WantedIsFresh(c[id].entry.acc, snaps[c[id].entry.acc]);
    hide Stale;
  }

  /** An entry once repaired stays so. */
  lemma ChangedStays(first: map<int, Slot>, c: map<int, Slot>, repaired: int, c': map<int, Slot>, id: int,
                     snaps: map<Account, Snapshot>)
    requires Mended(first, c, snaps) && Repaired(c, repaired, c', snaps) && Changed(first, c, id)
    ensures Changed(first, c', id)
  {
    StaleIsUntouched(first, c, repaired, snaps);
    hide Stale;
  }

  /** The account handed out is the one whose turn it is, and the entry at which the first pass stops is on offer. */
  ghost predicate TurnMet(ix: Index, curs: seq<nat>, provenCurs: seq<nat>, accs: set<Account>, acc: Account,
                          exclude: set<int>, snaps: map<Account, Snapshot>, load: map<Account, int>)
    requires WellFormed(ix) && |curs| == 3 && |provenCurs| == 3
  {
    && (forall a | a in accs && TakenInTurn(ix, curs, provenCurs, a, exclude, snaps, load) :: acc == a)
    && (forall id | FirstStop(ix, curs, provenCurs, id, exclude, snaps, load) ::
          id in Contents(ix) && Offered(Contents(ix)[id], exclude, snaps, load))
  }

  /** It is no account's turn, and an entry at which the first pass stops has been repaired in `c`. */
  ghost predicate TurnGone(ix: Index, curs: seq<nat>, provenCurs: seq<nat>, accs: set<Account>, c: map<int, Slot>,
                           exclude: set<int>, snaps: map<Account, Snapshot>, load: map<Account, int>)
    requires WellFormed(ix) && |curs| == 3 && |provenCurs| == 3
  {
    && (forall a | a in accs :: !TakenInTurn(ix, curs, provenCurs, a, exclude, snaps, load))
    && (forall id | FirstStop(ix, curs, provenCurs, id, exclude, snaps, load) :: Changed(Contents(ix), c, id))
  }

  lemma TurnGoneStays(ix: Index, curs: seq<nat>, provenCurs: seq<nat>, accs: set<Account>, c: map<int, Slot>,
                      repaired: int,
                      c': map<int, Slot>, exclude: set<int>, snaps: map<Account, Snapshot>, load: map<Account, int>)
    requires WellFormed(ix) && |curs| == 3 && |provenCurs| == 3
    requires TurnGone(ix, curs, provenCurs, accs, c, exclude, snaps, load)
    requires Mended(Contents(ix), c, snaps) && Repaired(c, repaired, c', snaps)
    ensures TurnGone(ix, curs, provenCurs, accs, c', exclude, snaps, load)
  {
    forall id | Changed(Contents(ix), c, id) {
      ChangedStays(Contents(ix), c, repaired, c', id, snaps);
    }
    hide TakenInTurn, FirstStop, WellFormed, Contents, Changed, Mended, Repaired;
  }

  /** What a pass did says whose turn it was. */
  lemma OnlyOutcome(ix: Index, curs: seq<nat>, provenCurs: seq<nat>, accs: set<Account>, acc: Account?, stale: bool,
                    c': map<int, Slot>, exclude: set<int>, snaps: map<Account, Snapshot>, load: map<Account, int>)
    requires WellFormed(ix) && |curs| == 3 && |provenCurs| == 3
    requires acc != null ==> TakenInTurn(ix, curs, provenCurs, acc, exclude, snaps, load)
    requires acc == null && stale ==> MendedInTurn(ix, curs, provenCurs, c', exclude, snaps, load)
    requires acc == null && !stale ==> TiersPassed(Contents(ix), 3, exclude, snaps, load)
    ensures acc != null ==> TurnMet(ix, curs, provenCurs, accs, acc, exclude, snaps, load)
    ensures acc == null ==> TurnGone(ix, curs, provenCurs, accs, c', exclude, snaps, load)
  {
    forall id | FirstStop(ix, curs, provenCurs, id, exclude, snaps, load)
      ensures id in Contents(ix) && if acc != null then Offered(Contents(ix)[id], exclude, snaps, load)
                                    else Changed(Contents(ix), c', id)
    {
      hide TakenInTurn, MendedInTurn, WellFormed, Contents, TiersPassed, StopsInTier, Offered, Repaired, Changed;
      var tierIdx: nat :| && tierIdx < 3 && TiersPassed(Contents(ix), tierIdx, exclude, snaps, load)
                          && StopsInTier(ix, tierIdx, curs, provenCurs, id, exclude, snaps, load);
      StopOutcome(ix, tierIdx, curs, provenCurs, id, acc, stale, c', exclude, snaps, load);
      if acc == null {
        RepairedChanges(Contents(ix), id, c', snaps);
      }
    }
    hide TakenInTurn, MendedInTurn, WellFormed, Contents, TiersPassed, FirstStop, Offered, Changed;
    forall a | a in accs && TakenInTurn(ix, curs, provenCurs, a, exclude, snaps, load)
      ensures acc == a
    {
      OneOutcome(ix, curs, provenCurs, a, if acc == null then a else acc, c', exclude, snaps, load);
    }
  }

  /** How the cursors decide an acquisition: an account whose turn it is gets it, and nothing is repaired; an entry at
      which the first pass stops and that cannot be handed out as it stands is repaired; when nothing is stale, there
      is one pass, an account handed out had its turn, and the cursors of what was scanned move on. */
  ghost predicate ByTurn(ix: Index, curs: seq<nat>, provenCurs: seq<nat>, ix': Index, curs': seq<nat>,
                         provenCurs': seq<nat>,
                         accs: set<Account>, acc: Account?, exclude: set<int>, snaps: map<Account, Snapshot>,
                         load: map<Account, int>)
    requires WellFormed(ix) && |curs| == 3 && |provenCurs| == 3
  {
    && (forall a | a in accs && TakenInTurn(ix, curs, provenCurs, a, exclude, snaps, load) :: acc == a && ix' == ix)
    && (WellFormed(ix') ==>
          forall id | id in Contents(ix) && FirstStop(ix, curs, provenCurs, id, exclude, snaps, load) ::
            Offered(Contents(ix)[id], exclude, snaps, load) || Changed(Contents(ix), Contents(ix'), id))
    && (StaleIds(Contents(ix), snaps) == {} ==>
          && ix' == ix && Turned(ix, 3, curs, provenCurs, curs', provenCurs', exclude, snaps, load)
          && (acc != null ==> TakenInTurn(ix, curs, provenCurs, acc, exclude, snaps, load)))
  }

  lemma ByTurnHolds(ix: Index, curs: seq<nat>, provenCurs: seq<nat>, ix': Index, curs': seq<nat>, provenCurs': seq<nat>,
                    accs: set<Account>, acc: Account?, exclude: set<int>, snaps: map<Account, Snapshot>,
                    load: map<Account, int>)
    requires WellFormed(ix) && WellFormed(ix') && |curs| == 3 && |provenCurs| == 3
    requires || (acc != null && ix' == ix && TurnMet(ix, curs, provenCurs, accs, acc, exclude, snaps, load))
             || TurnGone(ix, curs, provenCurs, accs, Contents(ix'), exclude, snaps, load)
    requires StaleIds(Contents(ix), snaps) == {} ==>
      && ix' == ix && Turned(ix, 3, curs, provenCurs, curs', provenCurs', exclude, snaps, load)
      && (acc != null ==> TakenInTurn(ix, curs, provenCurs, acc, exclude, snaps, load))
    ensures ByTurn(ix, curs, provenCurs, ix', curs', provenCurs', accs, acc, exclude, snaps, load)
  {
    hide WellFormed, Contents, StaleIds, Turned, TakenInTurn, FirstStop, Offered, Changed;
  }

  /** How many entries of a tier take turns first, and where their cursor stands: the proven ones, if there are any. */
  ghost function FirstInLine(ix: Index, i: nat): (n: nat)
    requires WellFormed(ix) && i < 3
    ensures n <= |ix.buckets[TIER_ORDER[i]]|
  {
    ProvenBound(ix, i);
    if ix.provenBounds[i] > 0 then ix.provenBounds[i] else |ix.buckets[TIER_ORDER[i]]|
  }

  ghost predicate AllOffered(ix: Index, i: nat, n: nat, exclude: set<int>, snaps: map<Account, Snapshot>,
                             load: map<Account, int>)
    requires WellFormed(ix) && i < 3 && n <= |ix.buckets[TIER_ORDER[i]]|
  {
    var t := TIER_ORDER[i];
    forall k | 0 <= k < n :: Offered(Slot(t, ix.buckets[t][k]), exclude, snaps, load)
  }

  lemma ProvenPassedOrNone(ix: Index, i: nat, exclude: set<int>, snaps: map<Account, Snapshot>, load: map<Account, int>)
    requires WellFormed(ix) && i < 3 && FirstInLine(ix, i) > 0
    requires AllOffered(ix, i, FirstInLine(ix, i), exclude, snaps, load)
    ensures TierPassed(Contents(ix), TIER_ORDER[i], true, exclude, snaps, load) <==> ix.provenBounds[i] == 0
    ensures !TierPassed(Contents(ix), TIER_ORDER[i], false, exclude, snaps, load)
  {
    var t := TIER_ORDER[i];
    var e := ix.buckets[t][0];
    ProvenBound(ix, i);
    EntryListed(ix, t, e);
    OfferedIsNotPassed(Slot(t, e), exclude, snaps, load);
    if ix.provenBounds[i] == 0 {
      ProvenTierPassed(ix, i, exclude, snaps, load);
    }
    hide WellFormed, Contents, Passed, Offered;
  }

  /** The entry under the cursor has its turn when all that take turns with it can be handed out. */
  lemma UnderCursor(ix: Index, i: nat, curs: seq<nat>, provenCurs: seq<nat>, exclude: set<int>,
                    snaps: map<Account, Snapshot>, load: map<Account, int>)
    requires WellFormed(ix) && i < 3 && |curs| == 3 && |provenCurs| == 3 && FirstInLine(ix, i) > 0
    requires TiersPassed(Contents(ix), i, exclude, snaps, load)
    requires AllOffered(ix, i, FirstInLine(ix, i), exclude, snaps, load)
    ensures var n := FirstInLine(ix, i);
      var cursor := if ix.provenBounds[i] > 0 then provenCurs[i] else curs[i];
      TakenInTurn(ix, curs, provenCurs, ix.buckets[TIER_ORDER[i]][cursor % n].acc, exclude, snaps, load)
  {
    var n := FirstInLine(ix, i);
    var cursor := if ix.provenBounds[i] > 0 then provenCurs[i] else curs[i];
    var t := TIER_ORDER[i];
    var range := ix.buckets[t][0..n];
    ProvenPassedOrNone(ix, i, exclude, snaps, load);
    assert Offered(Slot(t, range[cursor % n]), exclude, snaps, load);
    hide WellFormed, Contents, TierPassed, TiersPassed, Offered, Passed;
    var order := ScanOrder(range, Cyclic(cursor, 0, n));
    assert order[0] == range[cursor % n];
    assert Picked(range, cursor, t, range[cursor % n].acc, exclude, snaps, load);
  }

  lemma CursorMovesOn(ix: Index, i: nat, curs: seq<nat>, provenCurs: seq<nat>, curs': seq<nat>, provenCurs': seq<nat>,
                      exclude: set<int>, snaps: map<Account, Snapshot>, load: map<Account, int>)
    requires WellFormed(ix) && i < 3 && |curs| == 3 && |provenCurs| == 3 && FirstInLine(ix, i) > 0
    requires TiersPassed(Contents(ix), i, exclude, snaps, load)
    requires AllOffered(ix, i, FirstInLine(ix, i), exclude, snaps, load)
    requires Turned(ix, 3, curs, provenCurs, curs', provenCurs', exclude, snaps, load)
    ensures if ix.provenBounds[i] > 0 then provenCurs'[i] == provenCurs[i] + 1 else curs'[i] == curs[i] + 1
  {
    ProvenPassedOrNone(ix, i, exclude, snaps, load);
    hide WellFormed, Contents, TierPassed, TiersPassed, AllOffered;
  }

  lemma HisTurn(ix: Index, curs: seq<nat>, provenCurs: seq<nat>, ix': Index, curs': seq<nat>, provenCurs': seq<nat>,
                accs: set<Account>, acc: Account?, a: Account, exclude: set<int>, snaps: map<Account, Snapshot>,
                load: map<Account, int>)
    requires WellFormed(ix) && |curs| == 3 && |provenCurs| == 3
    requires ByTurn(ix, curs, provenCurs, ix', curs', provenCurs', accs, acc, exclude, snaps, load)
    requires a in accs && TakenInTurn(ix, curs, provenCurs, a, exclude, snaps, load)
    ensures acc == a
    ensures StaleIds(Contents(ix), snaps) == {} ==>
      Turned(ix, 3, curs, provenCurs, curs', provenCurs', exclude, snaps, load)
  {
    hide WellFormed, Contents, TakenInTurn, StaleIds, Turned, FirstStop, Offered;
  }

  lemma TakenUnderCursor(ix: Index, i: nat, curs: seq<nat>, provenCurs: seq<nat>, curs': seq<nat>,
                         provenCurs': seq<nat>, accs: set<Account>, acc: Account?, exclude: set<int>,
                         snaps: map<Account, Snapshot>, load: map<Account, int>)
    requires WellFormed(ix) && i < 3 && |curs| == 3 && |provenCurs| == 3 && FirstInLine(ix, i) > 0
    requires StaleIds(Contents(ix), snaps) == {} && forall e | e in ix.buckets[TIER_ORDER[i]] :: e.acc in accs
    requires TiersPassed(Contents(ix), i, exclude, snaps, load)
    requires AllOffered(ix, i, FirstInLine(ix, i), exclude, snaps, load)
    requires ByTurn(ix, curs, provenCurs, ix, curs', provenCurs', accs, acc, exclude, snaps, load)
    ensures var bucket, n := ix.buckets[TIER_ORDER[i]], FirstInLine(ix, i);
      acc == bucket[(if ix.provenBounds[i] > 0 then provenCurs[i] else curs[i]) % n].acc
    ensures Turned(ix, 3, curs, provenCurs, curs', provenCurs', exclude, snaps, load)
  {
    UnderCursor(ix, i, curs, provenCurs, exclude, snaps, load);
    var bucket, n := ix.buckets[TIER_ORDER[i]], FirstInLine(ix, i);
    var k := (if ix.provenBounds[i] > 0 then provenCurs[i] else curs[i]) % n;
    hide WellFormed, Contents, TakenInTurn, TierPassed, TiersPassed, AllOffered, StaleIds, Turned, ByTurn, FirstInLine;
    assert bucket[k] in bucket;
    HisTurn(ix, curs, provenCurs, ix, curs', provenCurs', accs, acc, bucket[k].acc, exclude, snaps, load);
  }

  /** Acquisitions go round: while nothing is stale and all entries that take turns in the best tier can be handed out,
      one acquisition hands out the entry under the cursor and the next one the entry after it. */
  lemma NextInLine(ix: Index, i: nat, curs: seq<nat>, provenCurs: seq<nat>, curs': seq<nat>, provenCurs': seq<nat>,
                   curs'': seq<nat>, provenCurs'': seq<nat>, accs: set<Account>, first: Account?, second: Account?,
                   exclude: set<int>, snaps: map<Account, Snapshot>, load: map<Account, int>, load': map<Account, int>)
    requires WellFormed(ix) && i < 3 && |curs| == |curs'| == 3 && |provenCurs| == |provenCurs'| == 3
    requires StaleIds(Contents(ix), snaps) == {} && FirstInLine(ix, i) > 0
    requires forall e | e in ix.buckets[TIER_ORDER[i]] :: e.acc in accs
    requires TiersPassed(Contents(ix), i, exclude, snaps, load)
    requires TiersPassed(Contents(ix), i, exclude, snaps, load')
    requires AllOffered(ix, i, FirstInLine(ix, i), exclude, snaps, load)
    requires AllOffered(ix, i, FirstInLine(ix, i), exclude, snaps, load')
    requires ByTurn(ix, curs, provenCurs, ix, curs', provenCurs', accs, first, exclude, snaps, load)
    requires ByTurn(ix, curs', provenCurs', ix, curs'', provenCurs'', accs, second, exclude, snaps, load')
    ensures var bucket, n := ix.buckets[TIER_ORDER[i]], FirstInLine(ix, i);
      var cursor := if ix.provenBounds[i] > 0 then provenCurs[i] else curs[i];
      first == bucket[cursor % n].acc && second == bucket[(cursor + 1) % n].acc
  {
    hide WellFormed, Contents, TierPassed, TiersPassed, AllOffered, StaleIds, Turned, ByTurn, FirstInLine;
    TakenUnderCursor(ix, i, curs, provenCurs, curs', provenCurs', accs, first, exclude, snaps, load);
    CursorMovesOn(ix, i, curs, provenCurs, curs', provenCurs', exclude, snaps, load);
    TakenUnderCursor(ix, i, curs', provenCurs', curs'', provenCurs'', accs, second, exclude, snaps, load');
  }

  /** A range is scanned from its first entry when its cursor stands at a multiple of its length. */
  ghost predicate FromTheTop(ix: Index, curs: seq<nat>, provenCurs: seq<nat>)
    requires WellFormed(ix) && |curs| == 3 && |provenCurs| == 3
  {
    forall i | 0 <= i < 3 ::
      && (ix.buckets[TIER_ORDER[i]] != [] ==> curs[i] % |ix.buckets[TIER_ORDER[i]]| == 0)
      && (ix.provenBounds[i] > 0 ==> provenCurs[i] % ix.provenBounds[i] == 0)
  }

  lemma PickedFromTop(range: seq<Entry>, cursor: nat, t: Tier, acc: Account, exclude: set<int>,
                      snaps: map<Account, Snapshot>, load: map<Account, int>) returns (k: nat)
    requires Picked(range, cursor, t, acc, exclude, snaps, load) && Cyclic(cursor, 0, |range|) == 0
    ensures k < |range| && range[k].acc == acc && Offered(Slot(t, range[k]), exclude, snaps, load)
    ensures forall j | 0 <= j < |range| && Offered(Slot(t, range[j]), exclude, snaps, load) :: k <= j
  {
    hide Cyclic;
    var order := ScanOrder(range, 0);
    assert order == range;
    k :| && 0 <= k < |order| && order[k].acc == acc && Offered(Slot(t, order[k]), exclude, snaps, load)
         && forall j | 0 <= j < k :: Passed(Slot(t, order[j]), exclude, snaps, load);
  }

  /** The range that the scan of a tier stopped in, and its cursor. */
  lemma PickedRange(ix: Index, tierIdx: nat, curs: seq<nat>, provenCurs: seq<nat>, acc: Account, exclude: set<int>,
                    snaps: map<Account, Snapshot>, load: map<Account, int>) returns (n: nat, cursor: nat)
    requires WellFormed(ix) && tierIdx < 3 && |curs| == 3 && |provenCurs| == 3 && FromTheTop(ix, curs, provenCurs)
    requires PickedInTier(ix, tierIdx, curs, provenCurs, acc, exclude, snaps, load)
    ensures n <= |ix.buckets[TIER_ORDER[tierIdx]]|
    ensures Picked(ix.buckets[TIER_ORDER[tierIdx]][0..n], cursor, TIER_ORDER[tierIdx], acc, exclude, snaps, load)
    ensures n > 0 && Cyclic(cursor, 0, n) == 0
    ensures n == |ix.buckets[TIER_ORDER[tierIdx]]| || n == ix.provenBounds[tierIdx]
  {
    hide PickedFrom, BucketOk, Found, Placed, ProvenPrefix;
    var t := TIER_ORDER[tierIdx];
    if TierPassed(Contents(ix), t, true, exclude, snaps, load) {
      n, cursor := |ix.buckets[t]|, curs[tierIdx];
    } else {
      n, cursor := ix.provenBounds[tierIdx], provenCurs[tierIdx];
    }
  }

  lemma EntryAt(ix: Index, t: Tier, id: int) returns (j: nat)
    requires WellFormed(ix) && t in INDEXED && id in Contents(ix) && Contents(ix)[id].tier == t
    ensures j < |ix.buckets[t]| && ix.buckets[t][j] == Contents(ix)[id].entry && ix.buckets[t][j].dbID == id
  {
    assert Placed(ix, id);
    j := ix.positions[id].index;
  }

  lemma InOrderOfTiers(ix: Index, i: nat)
    requires WellFormed(ix) && i < 3
    ensures TIER_ORDER[i] in INDEXED && ix.buckets.Keys == INDEXED
  {
  }

  /** Scanned from the top, a tier hands out the first of those on offer: proven before unproven, then the highest
      score, then the lowest id. */
  lemma HighestScoreFirst(ix: Index, curs: seq<nat>, provenCurs: seq<nat>, acc: Account, exclude: set<int>,
                          snaps: map<Account, Snapshot>, load: map<Account, int>, other: int)
    requires WellFormed(ix) && |curs| == 3 && |provenCurs| == 3 && FromTheTop(ix, curs, provenCurs)
    requires TakenInTurn(ix, curs, provenCurs, acc, exclude, snaps, load)
    requires var c := Contents(ix);
      && other in c && acc.dbID in c && c[other].tier == c[acc.dbID].tier && Offered(c[other], exclude, snaps, load)
    ensures var a, b := Contents(ix)[acc.dbID].entry, Contents(ix)[other].entry;
      && (b.proven ==> a.proven)
      && (a.proven == b.proven ==> a.score >= b.score)
      && (a.proven == b.proven && a.score == b.score ==> acc.dbID <= other)
  {
    hide WellFormed, Contents, Picked, PickedInTier, Offered, Cyclic, FromTheTop, Chosen, Best, TierPassed, TiersPassed;
    var c := Contents(ix);
    var i: nat :| i < 3 && TiersPassed(c, i, exclude, snaps, load)
                  && PickedInTier(ix, i, curs, provenCurs, acc, exclude, snaps, load);
    var t := TIER_ORDER[i];
    InOrderOfTiers(ix, i);
    var bucket := ix.buckets[t];
    var n, cursor := PickedRange(ix, i, curs, provenCurs, acc, exclude, snaps, load);
    var k := PickedFromTop(bucket[0..n], cursor, t, acc, exclude, snaps, load);
    EntryListed(ix, t, bucket[k]);
    var j := EntryAt(ix, t, other);
    if j < n {
      assert bucket[0..n][j] == bucket[j];
    }
    if k < j {
      BucketOrder(ix, t, k, j);
    }
  }

  /** Nothing else on offer in the tier is proven when `acc` is not, or as proven with a higher score, or with the same
      score and a lower id. */
  ghost predicate TopOfTier(c: map<int, Slot>, acc: Account, exclude: set<int>, snaps: map<Account, Snapshot>,
                            load: map<Account, int>) {
    && acc.dbID in c
    && forall id | id in c && c[id].tier == c[acc.dbID].tier && Offered(c[id], exclude, snaps, load) ::
         var a, b := c[acc.dbID].entry, c[id].entry;
         && (b.proven ==> a.proven)
         && (a.proven == b.proven ==> a.score >= b.score)
         && (a.proven == b.proven && a.score == b.score ==> acc.dbID <= id)
  }

  lemma TakenFromTop(ix: Index, curs: seq<nat>, provenCurs: seq<nat>, acc: Account, exclude: set<int>,
                     snaps: map<Account, Snapshot>, load: map<Account, int>)
    requires WellFormed(ix) && |curs| == 3 && |provenCurs| == 3 && FromTheTop(ix, curs, provenCurs)
    requires TakenInTurn(ix, curs, provenCurs, acc, exclude, snaps, load)
    ensures TopOfTier(Contents(ix), acc, exclude, snaps, load)
  {
    hide WellFormed, Contents, PickedInTier, Offered, FromTheTop, TiersPassed;
    var c := Contents(ix);
    var i: nat :| i < 3 && TiersPassed(c, i, exclude, snaps, load)
                  && PickedInTier(ix, i, curs, provenCurs, acc, exclude, snaps, load);
    PickedIsChosen(ix, i, curs, provenCurs, acc, exclude, snaps, load);
    forall id | id in c && c[id].tier == c[acc.dbID].tier && Offered(c[id], exclude, snaps, load) {
      HighestScoreFirst(ix, curs, provenCurs, acc, exclude, snaps, load, id);
    }
  }

  /** Of all that could be handed out as it stands, something of the best tier is: healthy before warm before risky. */
  lemma HealthyFirst(c: map<int, Slot>, acc: Account, exclude: set<int>, snaps: map<Account, Snapshot>,
                     load: map<Account, int>, other: int)
    requires Best(c, acc, exclude, snaps, load) && other in c && Offered(c[other], exclude, snaps, load)
    ensures acc.dbID in c && c[acc.dbID].tier in {Healthy, Warm, Risky}
    ensures c[other].tier == Healthy ==> c[acc.dbID].tier == Healthy
    ensures c[other].tier == Warm ==> c[acc.dbID].tier != Risky
  {
    hide Offered, Passed;
    var i: nat :| i < 3 && Chosen(c, TIER_ORDER[i], acc, exclude, snaps, load)
                  && TiersPassed(c, i, exclude, snaps, load);
    OfferedIsNotPassed(c[other], exclude, snaps, load);
    assert forall k | 0 <= k < i :: TierPassed(c, TIER_ORDER[k], false, exclude, snaps, load);
    assert TIER_ORDER[0] == Healthy && TIER_ORDER[1] == Warm && TIER_ORDER[2] == Risky;
  }

  // ---------------------------------------------------------------- one acquisition

  /** Every account of the index is excluded, unavailable or full. */
  ghost predicate NothingUsable(c: map<int, Slot>, exclude: set<int>, snaps: map<Account, Snapshot>,
                                load: map<Account, int>) {
    forall id | id in c ::
      var a := c[id].entry.acc; id in exclude || (a in snaps && a in load && !Usable(snaps[a], load[a]))
  }

  /** What one acquisition means for the index, the accounts as they were seen when it began: stale entries were
      mended, none behind an account that could be handed out; no account means none could be used; an account is the
      best that the mended index offers. */
  ghost predicate Acquired(before: map<int, Slot>, after: map<int, Slot>, acc: Account?, exclude: set<int>,
                           snaps: map<Account, Snapshot>, load: map<Account, int>) {
    && Mended(before, after, snaps) && InReach(before, after, exclude, snaps, load)
    && (acc == null ==> NothingUsable(before, exclude, snaps, load) && TiersPassed(after, 3, exclude, snaps, load))
    && (acc != null ==> Best(after, acc, exclude, snaps, load))
  }

  /** When every tier has been passed over, no account that was indexed at the start is usable. */
  lemma NilMeansNothing(first: map<int, Slot>, c: map<int, Slot>, exclude: set<int>, snaps: map<Account, Snapshot>,
                        load: map<Account, int>)
    requires Mended(first, c, snaps)
    requires forall id | id in first :: first[id].tier in INDEXED && first[id].entry.acc.dbID == id != 0
    requires forall id | id in first :: Seen(first[id].entry.acc, snaps, load)
    requires forall id | id in c :: c[id].tier in INDEXED && c[id].entry.dbID == id
    requires TiersPassed(c, 3, exclude, snaps, load)
    ensures NothingUsable(first, exclude, snaps, load)
  {
    hide Stale, TierPassed;
    assert TIER_ORDER[0] == Healthy && TIER_ORDER[1] == Warm && TIER_ORDER[2] == Risky;
    forall id | id in first
      ensures id in exclude || !Usable(snaps[first[id].entry.acc], load[first[id].entry.acc])
    {
      var a := first[id].entry.acc;
      if id in c {
        TierPassedAt(c, id, exclude, snaps, load);
        WantedIsFresh(a, snaps[a]);
      }
    }
  }

  /** Whatever acquiring hands out is not excluded, is available, has room, and stands where its snapshot says. */
  lemma ChosenIsSound(c: map<int, Slot>, acc: Account, exclude: set<int>, snaps: map<Account, Snapshot>,
                      load: map<Account, int>)
    requires Best(c, acc, exclude, snaps, load)
    ensures acc in snaps && acc in load && acc.dbID in c && acc.dbID !in exclude
    ensures snaps[acc].available && load[acc] + 1 <= snaps[acc].limit && snaps[acc].tier == c[acc.dbID].tier
  {
  }

  /** When an entry could be handed out as it stands, no entry with a later turn is repaired. */
  lemma NothingBehindAnOfferChanges(before: map<int, Slot>, after: map<int, Slot>, acc: Account?, exclude: set<int>,
                                    snaps: map<Account, Snapshot>, load: map<Account, int>, offered: int, id: int)
    requires Acquired(before, after, acc, exclude, snaps, load)
    requires offered in before && before[offered].entry.dbID == offered
    requires Offered(before[offered], exclude, snaps, load)
    requires id in before && Turn(before[id]) > Turn(before[offered])
    ensures id in after && after[id] == before[id]
  {
    assert Changed(before, after, id) ==> !Ahead(before, offered, Turn(before[id]), exclude, snaps, load);
  }

  ghost function TierNow(c: map<int, Slot>, id: int, snaps: map<Account, Snapshot>): Tier
    requires id in c && c[id].entry.acc in snaps
  {
    snaps[c[id].entry.acc].tier
  }

  /** An account that could be handed out and is in a better tier by its snapshot than the one that was. */
  ghost predicate Missed(before: map<int, Slot>, acc: Account, id: int, exclude: set<int>,
                         snaps: map<Account, Snapshot>, load: map<Account, int>)
    requires acc in snaps
  {
    Eligible(before, id, exclude, snaps, load) && TierRank(TierNow(before, id, snaps)) > TierRank(snaps[acc].tier)
  }

  /** The account has risen above the bucket in which its entry stands. */
  ghost predicate Lifted(c: map<int, Slot>, id: int, snaps: map<Account, Snapshot>) {
    id in c && c[id].entry.acc in snaps && TierRank(TierNow(c, id, snaps)) > TierRank(c[id].tier)
  }

  lemma ChosenIsFirst(c: map<int, Slot>, acc: Account, exclude: set<int>, snaps: map<Account, Snapshot>,
                      load: map<Account, int>)
    requires Best(c, acc, exclude, snaps, load)
    ensures acc.dbID in c && c[acc.dbID].entry.acc == acc && Offered(c[acc.dbID], exclude, snaps, load)
    ensures forall id | id in c && Turn(c[id]) < Turn(c[acc.dbID]) && c[id].tier in INDEXED ::
      Passed(c[id], exclude, snaps, load)
  {
    hide Passed;
    var tierIdx: nat :| tierIdx < 3 && Chosen(c, TIER_ORDER[tierIdx], acc, exclude, snaps, load)
                        && TiersPassed(c, tierIdx, exclude, snaps, load);
    assert TIER_ORDER[0] == Healthy && TIER_ORDER[1] == Warm && TIER_ORDER[2] == Risky;
    assert forall k | 0 <= k < tierIdx :: TierPassed(c, TIER_ORDER[k], false, exclude, snaps, load);
  }

  /** The account handed out, seen from the index before the call. */
  lemma ChosenBefore(before: map<int, Slot>, after: map<int, Slot>, acc: Account, exclude: set<int>,
                     snaps: map<Account, Snapshot>, load: map<Account, int>)
    requires Proper(before, snaps, load) && Acquired(before, after, acc, exclude, snaps, load)
    ensures acc.dbID in before && before[acc.dbID].entry.acc == acc && Eligible(before, acc.dbID, exclude, snaps, load)
    ensures after[acc.dbID].tier == snaps[acc].tier && Turn(after[acc.dbID]) == SnapTurn(before, acc.dbID, snaps)
    ensures after[acc.dbID] == before[acc.dbID] || Changed(before, after, acc.dbID)
    ensures forall id | id in after && Turn(after[id]) < Turn(after[acc.dbID]) && after[id].tier in INDEXED ::
              Passed(after[id], exclude, snaps, load)
  {
    ChosenIsSound(after, acc, exclude, snaps, load);
    MendedMembers(before, after, snaps);
    ChosenIsFirst(after, acc, exclude, snaps, load);
    hide Best, Acquired, Passed;
  }

  /** Only an account that has risen above its bucket is missed, and only for one whose turn is no later than that of
      its entry, both where it stood and where its snapshot puts it. */
  lemma MissedOnlyWhenLifted(before: map<int, Slot>, after: map<int, Slot>, acc: Account, exclude: set<int>,
                             snaps: map<Account, Snapshot>, load: map<Account, int>, id: int)
    requires Proper(before, snaps, load) && Acquired(before, after, acc, exclude, snaps, load)
    requires acc in snaps && Missed(before, acc, id, exclude, snaps, load)
    ensures Lifted(before, id, snaps) && id in after && after[id] == before[id]
    ensures acc.dbID in before && before[acc.dbID].entry.acc == acc && Eligible(before, acc.dbID, exclude, snaps, load)
    ensures Turn(before[acc.dbID]) <= Turn(before[id]) && SnapTurn(before, acc.dbID, snaps) <= Turn(before[id])
  {
    ChosenBefore(before, after, acc, exclude, snaps, load);
    EligibleStays(before, after, id, exclude, snaps, load);
    hide Best, Passed, Usable;
    assert Turn(after[acc.dbID]) <= Turn(after[id]);
    if Changed(before, after, acc.dbID) {
      assert !Ahead(before, id, Turn(before[acc.dbID]), exclude, snaps, load);
    }
  }

  /** No account that could be handed out is in a better tier, and none as good stands earlier. */
  ghost predicate Foremost(c: map<int, Slot>, id: int, exclude: set<int>, snaps: map<Account, Snapshot>,
                           load: map<Account, int>) {
    && Eligible(c, id, exclude, snaps, load)
    && forall other | Eligible(c, other, exclude, snaps, load) ::
         || TierRank(TierNow(c, other, snaps)) < TierRank(TierNow(c, id, snaps))
         || (TierNow(c, other, snaps) == TierNow(c, id, snaps) && Turn(c[other]) >= Turn(c[id]))
  }

  /** An account that has risen above its bucket is missed when one in a worse tier has its turn before, where it stood
      and where its snapshot puts it, and no account as good as it can be reached earlier. */
  lemma MissedWhenBehind(before: map<int, Slot>, after: map<int, Slot>, acc: Account, exclude: set<int>,
                         snaps: map<Account, Snapshot>, load: map<Account, int>, id: int, sooner: int)
    requires Proper(before, snaps, load) && Acquired(before, after, acc, exclude, snaps, load)
    requires Foremost(before, id, exclude, snaps, load) && Lifted(before, id, snaps)
    requires sooner in before && Ahead(before, sooner, Turn(before[id]), exclude, snaps, load)
    ensures acc in snaps && Missed(before, acc, id, exclude, snaps, load)
  {
    ChosenBefore(before, after, acc, exclude, snaps, load);
    EligibleStays(before, after, sooner, exclude, snaps, load);
    hide Best, Passed, Usable;
    assert Changed(before, after, acc.dbID) ==> !Ahead(before, sooner, Turn(before[acc.dbID]), exclude, snaps, load);
  }

  /** No account in a worse tier shares its turn with the entry of `id`; between two such, the cursor decides. */
  ghost predicate NoTie(c: map<int, Slot>, id: int, exclude: set<int>, snaps: map<Account, Snapshot>,
                        load: map<Account, int>)
    requires id in c
  {
    forall other | other != id && Eligible(c, other, exclude, snaps, load) ::
      Turn(c[other]) != Turn(c[id]) && SnapTurn(c, other, snaps) != Turn(c[id])
  }

  /** Whenever there is an account that could be handed out, one of them is foremost. */
  lemma {:induction false} ForemostExists(c: map<int, Slot>, exclude: set<int>, snaps: map<Account, Snapshot>,
                                          load: map<Account, int>, some: int) returns (id: int)
    requires Proper(c, snaps, load) && Eligible(c, some, exclude, snaps, load)
    ensures Foremost(c, id, exclude, snaps, load)
    decreases 10 * (3 - TierRank(TierNow(c, some, snaps))) + Turn(c[some])
  {
    if Foremost(c, some, exclude, snaps, load) {
      return some;
    }
    var other :| && Eligible(c, other, exclude, snaps, load)
                 && TierRank(TierNow(c, other, snaps)) >= TierRank(TierNow(c, some, snaps))
                 && (TierNow(c, other, snaps) != TierNow(c, some, snaps) || Turn(c[other]) < Turn(c[some]));
    id := ForemostExists(c, exclude, snaps, load, other);
  }

  /** When an acquisition falls short of the best tier, told from the index before the call: exactly when the foremost
      of the best accounts has risen above its bucket and another account that could be handed out has its turn before
      it. */
  lemma FallsShortExactly(before: map<int, Slot>, after: map<int, Slot>, acc: Account, exclude: set<int>,
                          snaps: map<Account, Snapshot>, load: map<Account, int>, id: int)
    requires Proper(before, snaps, load) && Acquired(before, after, acc, exclude, snaps, load)
    requires Foremost(before, id, exclude, snaps, load) && NoTie(before, id, exclude, snaps, load)
    ensures acc in snaps && acc.dbID in before && Eligible(before, acc.dbID, exclude, snaps, load)
    ensures Missed(before, acc, id, exclude, snaps, load) <==>
      (Lifted(before, id, snaps) && exists x | x in before :: Ahead(before, x, Turn(before[id]), exclude, snaps, load))
  {
    ChosenBefore(before, after, acc, exclude, snaps, load);
    if Missed(before, acc, id, exclude, snaps, load) {
      MissedOnlyWhenLifted(before, after, acc, exclude, snaps, load, id);
      assert Ahead(before, acc.dbID, Turn(before[id]), exclude, snaps, load);
    }
    if x :| Lifted(before, id, snaps) && x in before && Ahead(before, x, Turn(before[id]), exclude, snaps, load) {
      MissedWhenBehind(before, after, acc, exclude, snaps, load, id, x);
    }
  }

  lemma OfferedStopIsTaken(ix: Index, curs: seq<nat>, provenCurs: seq<nat>, stop: int, exclude: set<int>,
                           snaps: map<Account, Snapshot>, load: map<Account, int>)
    requires WellFormed(ix) && |curs| == 3 && |provenCurs| == 3
    requires FirstStop(ix, curs, provenCurs, stop, exclude, snaps, load)
    requires stop in Contents(ix) && Offered(Contents(ix)[stop], exclude, snaps, load)
    ensures TakenInTurn(ix, curs, provenCurs, Contents(ix)[stop].entry.acc, exclude, snaps, load)
  {
    hide WellFormed, Contents, TiersPassed, StopsInTier, PickedInTier, Offered;
    var tierIdx: nat :| && tierIdx < 3 && TiersPassed(Contents(ix), tierIdx, exclude, snaps, load)
                        && StopsInTier(ix, tierIdx, curs, provenCurs, stop, exclude, snaps, load);
    StopEndsTier(ix, tierIdx, curs, provenCurs, stop, exclude, snaps, load);
  }

  /** When the foremost of the best accounts has risen above its bucket and the first pass stops at its entry, or at
      one that can be handed out as it stands, the cursors decide: the acquisition falls short exactly when it is
      another entry. */
  lemma FirstStopDecides(ix: Index, curs: seq<nat>, provenCurs: seq<nat>, ix': Index, curs': seq<nat>,
                         provenCurs': seq<nat>, accs: set<Account>, acc: Account, exclude: set<int>,
                         snaps: map<Account, Snapshot>, load: map<Account, int>, id: int, stop: int)
    requires WellFormed(ix) && WellFormed(ix') && |curs| == 3 && |provenCurs| == 3
    requires Proper(Contents(ix), snaps, load) && Acquired(Contents(ix), Contents(ix'), acc, exclude, snaps, load)
    requires ByTurn(ix, curs, provenCurs, ix', curs', provenCurs', accs, acc, exclude, snaps, load)
    requires forall x | x in Contents(ix) :: Contents(ix)[x].entry.acc in accs
    requires Foremost(Contents(ix), id, exclude, snaps, load) && Lifted(Contents(ix), id, snaps)
    requires FirstStop(ix, curs, provenCurs, stop, exclude, snaps, load)
    requires stop in Contents(ix) && (stop == id || Offered(Contents(ix)[stop], exclude, snaps, load))
    ensures acc in snaps && (Missed(Contents(ix), acc, id, exclude, snaps, load) <==> stop != id)
  {
    var c := Contents(ix);
    ChosenBefore(c, Contents(ix'), acc, exclude, snaps, load);
    if stop == id {
      if Missed(c, acc, id, exclude, snaps, load) {
        MissedOnlyWhenLifted(c, Contents(ix'), acc, exclude, snaps, load, id);
      }
    } else {
      OfferedStopIsTaken(ix, curs, provenCurs, stop, exclude, snaps, load);
      var a := c[stop].entry.acc;
      assert acc == a;
      assert Eligible(c, stop, exclude, snaps, load) && c[stop].tier == snaps[a].tier;
    }
  }

  /** So an index in which no account has risen above its bucket never falls short. */
  lemma NeverShortWhenNoneLifted(before: map<int, Slot>, after: map<int, Slot>, acc: Account, exclude: set<int>,
                                 snaps: map<Account, Snapshot>, load: map<Account, int>)
    requires Proper(before, snaps, load) && Acquired(before, after, acc, exclude, snaps, load)
    requires forall id | Eligible(before, id, exclude, snaps, load) :: !Lifted(before, id, snaps)
    ensures acc in snaps && forall id :: !Missed(before, acc, id, exclude, snaps, load)
  {
    ChosenBefore(before, after, acc, exclude, snaps, load);
    forall id
      ensures !Missed(before, acc, id, exclude, snaps, load)
    {
      if Missed(before, acc, id, exclude, snaps, load) {
        MissedOnlyWhenLifted(before, after, acc, exclude, snaps, load, id);
      }
    }
  }

  /** The entry of `b` stands in the risky bucket although its snapshot is healthy by now; `a` is warm. */
  ghost function RisenIndex(a: Account, b: Account): map<int, Slot> {
    map[a.dbID := Slot(Warm, Entry(a, a.dbID, 90.0, false)), b.dbID := Slot(Risky, Entry(b, b.dbID, 50.0, false))]
  }

  ghost function RisenSnaps(a: Account, b: Account): map<Account, Snapshot> {
    map[a := Snapshot(Warm, 90.0, 2, false, true), b := Snapshot(Healthy, 100.0, 2, false, true)]
  }

  /** There every acquisition hands out the warm account, misses the healthy one and repairs nothing. */
  lemma RisenIsMissed(a: Account, b: Account, after: map<int, Slot>, acc: Account?)
    requires a.dbID != b.dbID && Acquired(RisenIndex(a, b), after, acc, {}, RisenSnaps(a, b), map[a := 0, b := 0])
    ensures acc == a && after == RisenIndex(a, b)
    ensures Missed(RisenIndex(a, b), acc, b.dbID, {}, RisenSnaps(a, b), map[a := 0, b := 0])
  {
    var before, snaps, load := RisenIndex(a, b), RisenSnaps(a, b), map[a := 0, b := 0];
    assert Turn(before[b.dbID]) == 5 && Turn(before[a.dbID]) == 3;
    NothingBehindAnOfferChanges(before, after, acc, {}, snaps, load, a.dbID, b.dbID);
    assert forall id | id in after :: id in before;
    assert a.dbID in after && after[a.dbID] == before[a.dbID];
    assert after == before;
    assert acc != null by {
      assert Usable(snaps[a], load[a]) && a.dbID !in {};
    }
    ChosenIsSound(after, acc, {}, snaps, load);
  }

  /** `x` stands in the risky bucket, fresh, beside the stale entry of `b`. */
  ghost function TiedIndex(x: Account, b: Account): map<int, Slot> {
    map[x.dbID := Slot(Risky, Entry(x, x.dbID, 50.0, false)), b.dbID := Slot(Risky, Entry(b, b.dbID, 50.0, false))]
  }

  ghost function TiedSnaps(x: Account, b: Account): map<Account, Snapshot> {
    map[x := Snapshot(Risky, 50.0, 2, false, true), b := Snapshot(Healthy, 100.0, 2, false, true)]
  }

  lemma TiedTaken(x: Account, b: Account)
    requires x.dbID != b.dbID
    ensures Acquired(TiedIndex(x, b), TiedIndex(x, b), x, {}, TiedSnaps(x, b), map[x := 0, b := 0])
  {
    var before, snaps, load := TiedIndex(x, b), TiedSnaps(x, b), map[x := 0, b := 0];
    assert TIER_ORDER[0] == Healthy && TIER_ORDER[1] == Warm && TIER_ORDER[2] == Risky;
    assert Chosen(before, TIER_ORDER[2], x, {}, snaps, load) && TiersPassed(before, 2, {}, snaps, load);
  }

  lemma TiedMended(x: Account, b: Account)
    requires x.dbID != b.dbID && b.dbID != 0
    ensures Acquired(TiedIndex(x, b), TiedIndex(x, b)[b.dbID := Slot(Healthy, Entry(b, b.dbID, 100.0, false))], b, {},
                     TiedSnaps(x, b), map[x := 0, b := 0])
  {
    var before, snaps, load := TiedIndex(x, b), TiedSnaps(x, b), map[x := 0, b := 0];
    var mended := before[b.dbID := Slot(Healthy, Entry(b, b.dbID, 100.0, false))];
    assert TIER_ORDER[0] == Healthy;
    assert Chosen(mended, TIER_ORDER[0], b, {}, snaps, load) && TiersPassed(mended, 0, {}, snaps, load);
    assert Turn(before[b.dbID]) == 5 && Turn(before[x.dbID]) == 5;
  }

  /** Between two accounts with the same turn the contents do not decide: an acquisition may hand out either. */
  lemma TieGoesEitherWay(x: Account, b: Account)
    requires x.dbID != b.dbID && b.dbID != 0
    ensures exists after :: Acquired(TiedIndex(x, b), after, x, {}, TiedSnaps(x, b), map[x := 0, b := 0])
    ensures exists after :: Acquired(TiedIndex(x, b), after, b, {}, TiedSnaps(x, b), map[x := 0, b := 0])
  {
    TiedTaken(x, b);
    TiedMended(x, b);
  }
}
