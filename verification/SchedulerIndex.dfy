/** The account scheduler's index as a value: three sorted tier buckets, a position for every id and
    the length of each bucket's proven prefix. An index is determined by its contents, so runs of
    updates agree with rebuilding. */
module SchedulerIndex {
  import opened Accounts
  import opened Sorting
  import opened Wrappers

  const TIER_ORDER: seq<Tier> := [Healthy, Warm, Risky]
  const INDEXED: set<Tier> := {Healthy, Warm, Risky}

  function TierIndex(t: Tier): (i: nat)
    requires t in INDEXED
    ensures i < 3 && TIER_ORDER[i] == t
  {
    match t
    case Healthy => 0
    case Warm => 1
    case _ => 2
  }

  datatype Entry = Entry(acc: Account, dbID: int, score: real, proven: bool)

  datatype Position = Position(tier: Tier, index: nat)

  /** Where an account stands: its tier bucket and its cached entry there. */
  datatype Slot = Slot(tier: Tier, entry: Entry)

  predicate Before(a: Entry, b: Entry) {
    if a.proven != b.proven then a.proven
    else if a.score == b.score then a.dbID < b.dbID
    else a.score > b.score
  }

  datatype Index = Index(buckets: map<Tier, seq<Entry>>, positions: map<int, Position>, provenBounds: seq<nat>)

  /** The length of the leading run of proven entries. */
  function ProvenPrefix(bucket: seq<Entry>): (n: nat)
    ensures n <= |bucket|
  {
    if bucket == [] || !bucket[0].proven then 0 else 1 + ProvenPrefix(bucket[1..])
  }

  /** In a sorted bucket that prefix holds every proven entry. */
  lemma {:induction false} ProvenPrefixExact(bucket: seq<Entry>)
    requires Sorted(Before, bucket)
    ensures forall i | 0 <= i < |bucket| :: bucket[i].proven <==> i < ProvenPrefix(bucket)
  {
    if bucket != [] {
      ProvenPrefixExact(bucket[1..]);
      forall i | 0 < i < |bucket|
        ensures bucket[i].proven <==> i < ProvenPrefix(bucket)
      {
        assert bucket[i] == bucket[1..][i - 1];
        assert Before(bucket[0], bucket[i]);
      }
    }
  }

  ghost predicate BucketOk(bucket: seq<Entry>) {
    && Sorted(Before, bucket)
    && forall i | 0 <= i < |bucket| :: bucket[i].acc.dbID == bucket[i].dbID != 0
  }

  /** The position index sends every entry of bucket `t` to its place there. */
  ghost predicate Found(positions: map<int, Position>, t: Tier, bucket: seq<Entry>) {
    forall i | 0 <= i < |bucket| ::
      bucket[i].dbID in positions && positions[bucket[i].dbID] == Position(t, i)
  }

  /** What the position index says of `id` is true. */
  ghost predicate Placed(ix: Index, id: int)
    requires id in ix.positions && ix.buckets.Keys == INDEXED
  {
    var p := ix.positions[id];
    p.tier in INDEXED && p.index < |ix.buckets[p.tier]| && ix.buckets[p.tier][p.index].dbID == id
  }

  /** Every bucket sorted, every id in exactly one place and found there, every bound the proven prefix. */
  ghost predicate WellFormed(ix: Index) {
    && ix.buckets.Keys == INDEXED
    && |ix.provenBounds| == 3
    && (forall t | t in INDEXED :: BucketOk(ix.buckets[t]))
    && (forall t | t in INDEXED :: ix.provenBounds[TierIndex(t)] == ProvenPrefix(ix.buckets[t]))
    && (forall t | t in INDEXED :: Found(ix.positions, t, ix.buckets[t]))
    && (forall id | id in ix.positions :: Placed(ix, id))
  }

  /** What an index says: the slot of every indexed id. */
  ghost function Contents(ix: Index): map<int, Slot>
    requires WellFormed(ix)
  {
    map id | id in ix.positions ::
      Slot(ix.positions[id].tier, ix.buckets[ix.positions[id].tier][ix.positions[id].index])
  }

  /** How every bucket is ordered: proven accounts first, then the higher score, then the lower id. */
  lemma BucketOrder(ix: Index, t: Tier, i: nat, j: nat)
    requires WellFormed(ix) && t in INDEXED && i < j < |ix.buckets[t]|
    ensures var a, b := ix.buckets[t][i], ix.buckets[t][j];
      && (b.proven ==> a.proven)
      && (a.proven == b.proven ==> a.score >= b.score)
      && (a.proven == b.proven && a.score == b.score ==> a.dbID < b.dbID)
  {
    hide ProvenPrefix, Found, Placed;
    assert BucketOk(ix.buckets[t]);
    assert Before(ix.buckets[t][i], ix.buckets[t][j]);
  }

  lemma BeforeIsOrder(s: seq<Entry>)
    requires forall a, b | a in s && b in s && a != b :: a.dbID != b.dbID
    ensures StrictOrderOn(Before, s)
  {
  }

  lemma InBucket(ix: Index, t: Tier, e: Entry)
    requires WellFormed(ix) && t in INDEXED
    ensures e in ix.buckets[t] <==> e.dbID in Contents(ix) && Contents(ix)[e.dbID] == Slot(t, e)
  {
  }

  lemma SameBucket(a: Index, b: Index, t: Tier)
    requires WellFormed(a) && WellFormed(b) && Contents(a) == Contents(b) && t in INDEXED
    ensures a.buckets[t] == b.buckets[t]
  {
    forall e
      ensures e in a.buckets[t] <==> e in b.buckets[t]
    {
      InBucket(a, t, e);
      InBucket(b, t, e);
    }
    BeforeIsOrder(a.buckets[t]);
    SortedUnique(Before, a.buckets[t], b.buckets[t]);
  }

  lemma SamePosition(a: Index, b: Index, id: int)
    requires WellFormed(a) && WellFormed(b) && Contents(a) == Contents(b) && id in a.positions
    requires forall t | t in INDEXED :: a.buckets[t] == b.buckets[t]
    ensures id in b.positions && a.positions[id] == b.positions[id]
  {
    hide ProvenPrefix, BucketOk;
    assert id in Contents(a) && Contents(a)[id] == Contents(b)[id];
    var p, q := a.positions[id], b.positions[id];
    assert Placed(a, id) && Placed(b, id) && p.tier == q.tier;
    assert Found(b.positions, p.tier, b.buckets[p.tier]);
    assert b.buckets[p.tier][p.index].dbID == id;
  }

  /** An index is determined by its contents: buckets, positions and bounds included. */
  lemma Canonical(a: Index, b: Index)
    requires WellFormed(a) && WellFormed(b) && Contents(a) == Contents(b)
    ensures a == b
  {
    hide ProvenPrefix, BucketOk, Found;
    forall t | t in INDEXED
      ensures a.buckets[t] == b.buckets[t] && a.provenBounds[TierIndex(t)] == b.provenBounds[TierIndex(t)]
    {
      SameBucket(a, b, t);
    }
    assert TierIndex(Healthy) == 0 && TierIndex(Warm) == 1 && TierIndex(Risky) == 2;
    assert a.positions.Keys == Contents(a).Keys == Contents(b).Keys == b.positions.Keys;
    forall id | id in a.positions
      ensures a.positions[id] == b.positions[id]
    {
      SamePosition(a, b, id);
    }
  }

  lemma BucketsThree(ix: Index)
    requires WellFormed(ix)
    ensures |ix.provenBounds| == 3 && ix.buckets.Keys == INDEXED
  {
  }

  lemma SlotOwned(ix: Index, id: int)
    requires WellFormed(ix) && id in Contents(ix)
    ensures var s := Contents(ix)[id]; s.tier in INDEXED && s.entry.acc.dbID == s.entry.dbID == id && id != 0
  {
    assert Placed(ix, id);
    assert BucketOk(ix.buckets[ix.positions[id].tier]);
  }

  lemma SlotsOwned(ix: Index)
    requires WellFormed(ix)
    ensures forall id | id in Contents(ix) ::
              var s := Contents(ix)[id]; s.tier in INDEXED && s.entry.acc.dbID == s.entry.dbID == id && id != 0
  {
    forall id | id in Contents(ix) {
      SlotOwned(ix, id);
    }
  }

  lemma NoZeroId(ix: Index)
    requires WellFormed(ix)
    ensures 0 !in Contents(ix)
  {
    if 0 in ix.positions {
      SlotOwned(ix, 0);
    }
  }

  lemma EntryListed(ix: Index, t: Tier, e: Entry)
    requires WellFormed(ix) && t in INDEXED && e in ix.buckets[t]
    ensures e.dbID in Contents(ix) && Contents(ix)[e.dbID] == Slot(t, e)
    ensures e.acc.dbID == e.dbID
  {
    InBucket(ix, t, e);
    SlotOwned(ix, e.dbID);
  }

  lemma ProvenBound(ix: Index, tierIdx: nat)
    requires WellFormed(ix) && tierIdx < 3
    ensures var t := TIER_ORDER[tierIdx];
            && ix.provenBounds[tierIdx] <= |ix.buckets[t]|
            && forall i | 0 <= i < |ix.buckets[t]| :: ix.buckets[t][i].proven <==> i < ix.provenBounds[tierIdx]
  {
    var t := TIER_ORDER[tierIdx];
    assert t in INDEXED && TierIndex(t) == tierIdx;
    assert BucketOk(ix.buckets[t]);
    ProvenPrefixExact(ix.buckets[t]);
  }

  // ---------------------------------------------------------------- what a snapshot asks of the index

  function WantedSlot(acc: Account, s: Snapshot): Option<Slot> {
    if acc.dbID == 0 || !s.available || s.limit <= 0 || s.tier !in INDEXED then None
    else Some(Slot(s.tier, Entry(acc, acc.dbID, s.score, s.proven)))
  }

  ghost predicate Covers(snaps: map<Account, Snapshot>, accounts: seq<Account?>) {
    forall i | 0 <= i < |accounts| && accounts[i] != null :: accounts[i] in snaps
  }

  /** One more account in a rebuild: it fills its slot, if its snapshot asks for one. */
  ghost function WantedStep(rest: map<int, Slot>, a: Account?, snaps: map<Account, Snapshot>): map<int, Slot>
    requires a != null ==> a in snaps
  {
    if a == null then rest
    else
      var w := WantedSlot(a, snaps[a]);
      if w.None? then rest else rest[a.dbID := w.value]
  }

  /** The slots that a rebuild over `accounts` fills. */
  ghost function WantedBy(accounts: seq<Account?>, snaps: map<Account, Snapshot>): map<int, Slot>
    requires Covers(snaps, accounts)
  {
    if accounts == [] then map[]
    else WantedStep(WantedBy(accounts[..|accounts| - 1], snaps), accounts[|accounts| - 1], snaps)
  }

  // ---------------------------------------------------------------- runs of updates and removals

  /** The account is reported with a snapshot just taken, or its id is removed. */
  datatype Change = Updated(acc: Account, snap: Snapshot) | Removed(id: int)

  function Apply(c: map<int, Slot>, id: int, w: Option<Slot>): map<int, Slot> {
    if w.Some? then (c - {id})[id := w.value] else c - {id}
  }

  lemma ApplyLaws(c: map<int, Slot>, id: int, w: Option<Slot>)
    ensures Apply(c - {id}, id, w) == Apply(c, id, w)
    ensures Apply(c, id, None) == c - {id}
    ensures id !in c ==> c - {id} == c && (w.Some? ==> Apply(c, id, w) == c[id := w.value])
  {
  }

  /** The contents after the changes, each update by the snapshot of its own moment. */
  ghost function Run(c: map<int, Slot>, changes: seq<Change>): map<int, Slot> {
    if changes == [] then c
    else
      var before := Run(c, changes[..|changes| - 1]);
      match changes[|changes| - 1]
      case Updated(a, s) => Apply(before, a.dbID, WantedSlot(a, s))
      case Removed(id) => before - {id}
  }

  /** What each account's snapshot said when the account was last reported. */
  ghost function LastSnaps(snaps: map<Account, Snapshot>, changes: seq<Change>): map<Account, Snapshot> {
    if changes == [] then snaps
    else
      var before := LastSnaps(snaps, changes[..|changes| - 1]);
      match changes[|changes| - 1]
      case Updated(a, s) => before[a := s]
      case Removed(_) => before
  }

  ghost function Dropped(accounts: seq<Account?>, id: int): seq<Account?> {
    if accounts == [] then []
    else
      var a := accounts[|accounts| - 1];
      Dropped(accounts[..|accounts| - 1], id) + (if a != null && a.dbID == id then [] else [a])
  }

  /** The accounts that a store holds after the same changes. */
  ghost function Remaining(accounts: seq<Account?>, changes: seq<Change>): seq<Account?> {
    if changes == [] then accounts
    else
      var before := Remaining(accounts, changes[..|changes| - 1]);
      match changes[|changes| - 1]
      case Updated(a, _) => Dropped(before, a.dbID) + [a]
      case Removed(id) => Dropped(before, id)
  }

  lemma WantedStepWithout(rest: map<int, Slot>, a: Account?, snaps: map<Account, Snapshot>, id: int)
    requires a != null ==> a in snaps
    ensures WantedStep(rest, a, snaps) - {id} ==
      if a != null && a.dbID == id then rest - {id} else WantedStep(rest - {id}, a, snaps)
  {
  }

  lemma {:induction false} DroppedIsWithout(accounts: seq<Account?>, id: int, snaps: map<Account, Snapshot>)
    requires Covers(snaps, accounts)
    ensures Covers(snaps, Dropped(accounts, id))
    ensures WantedBy(Dropped(accounts, id), snaps) == WantedBy(accounts, snaps) - {id}
  {
    hide WantedStep;
    if accounts == [] {
      assert WantedBy(accounts, snaps) == map[];
    } else {
      var init := accounts[..|accounts| - 1];
      var a := accounts[|accounts| - 1];
      DroppedIsWithout(init, id, snaps);
      WantedStepWithout(WantedBy(init, snaps), a, snaps, id);
      if !(a != null && a.dbID == id) {
        assert Dropped(accounts, id)[..|Dropped(init, id)|] == Dropped(init, id);
      } else {
        assert Dropped(accounts, id) == Dropped(init, id);
      }
    }
  }

  lemma {:induction false} DroppedLacks(accounts: seq<Account?>, id: int)
    ensures forall a: Account | a in Dropped(accounts, id) :: a.dbID != id
  {
    if accounts != [] {
      DroppedLacks(accounts[..|accounts| - 1], id);
    }
  }

  /** A rebuild does not look at the snapshot of an account that it is not given. */
  lemma {:induction false} UnlistedSnapshot(accounts: seq<Account?>, snaps: map<Account, Snapshot>, a: Account,
                                            s: Snapshot)
    requires Covers(snaps, accounts) && a !in accounts
    ensures WantedBy(accounts, snaps[a := s]) == WantedBy(accounts, snaps)
  {
    if accounts != [] {
      assert accounts[|accounts| - 1] in accounts;
      UnlistedSnapshot(accounts[..|accounts| - 1], snaps, a, s);
    }
  }

  /** An update at the end of a rebuild's list of accounts, with a snapshot of its own. */
  lemma UpdatedIsListed(accounts: seq<Account?>, snaps: map<Account, Snapshot>, a: Account, s: Snapshot)
    requires Covers(snaps, accounts)
    ensures Covers(snaps[a := s], Dropped(accounts, a.dbID) + [a])
    ensures Apply(WantedBy(accounts, snaps), a.dbID, WantedSlot(a, s)) ==
      WantedBy(Dropped(accounts, a.dbID) + [a], snaps[a := s])
  {
    var kept := Dropped(accounts, a.dbID);
    DroppedIsWithout(accounts, a.dbID, snaps);
    DroppedLacks(accounts, a.dbID);
    UnlistedSnapshot(kept, snaps, a, s);
    assert (kept + [a])[..|kept|] == kept;
  }

  /** Any run of updates and removals after a rebuild, each update with the snapshot of its moment, leaves the
      contents that one rebuild over the remaining accounts gives, each with its last snapshot. */
  lemma {:induction false} RunIsRebuild(accounts: seq<Account?>, changes: seq<Change>, snaps: map<Account, Snapshot>)
    requires Covers(snaps, accounts)
    ensures Covers(LastSnaps(snaps, changes), Remaining(accounts, changes))
    ensures Run(WantedBy(accounts, snaps), changes) == WantedBy(Remaining(accounts, changes), LastSnaps(snaps, changes))
  {
    if changes != [] {
      hide WantedBy, Apply, WantedSlot, Dropped;
      var init := changes[..|changes| - 1];
      RunIsRebuild(accounts, init, snaps);
      var before, last := Remaining(accounts, init), LastSnaps(snaps, init);
      match changes[|changes| - 1] {
        case Updated(a, s) => UpdatedIsListed(before, last, a, s);
        case Removed(id) => DroppedIsWithout(before, id, last);
      }
    }
  }

  /** Hence the index the run reaches is, buckets, positions and bounds alike, the index that the rebuild produces. */
  lemma RunIndexIsRebuildIndex(accounts: seq<Account?>, changes: seq<Change>, snaps: map<Account, Snapshot>,
                               run: Index, rebuilt: Index)
    requires Covers(snaps, accounts) && Covers(LastSnaps(snaps, changes), Remaining(accounts, changes))
    requires WellFormed(run) && Contents(run) == Run(WantedBy(accounts, snaps), changes)
    requires WellFormed(rebuilt)
    requires Contents(rebuilt) == WantedBy(Remaining(accounts, changes), LastSnaps(snaps, changes))
    ensures run == rebuilt
  {
    RunIsRebuild(accounts, changes, snaps);
    Canonical(run, rebuilt);
  }

  // ---------------------------------------------------------------- one entry taken out, one put in

  ghost predicate Holds(bucket: seq<Entry>, id: int) {
    exists i :: 0 <= i < |bucket| && bucket[i].dbID == id
  }

  /** `id` stands in another bucket than `t`, and its position is as it was. */
  ghost predicate KeptElsewhere(ix: Index, t: Tier, ix': Index, id: int) {
    && id in ix.positions && id in ix'.positions
    && ix.positions[id].tier != t && ix'.positions[id] == ix.positions[id]
  }

  /** `ix'` is `ix` with bucket `t` replaced by `bucket`, its positions and its bound recounted. */
  ghost predicate BucketReplaced(ix: Index, t: Tier, bucket: seq<Entry>, ix': Index)
    requires WellFormed(ix) && t in INDEXED
  {
    && ix'.buckets == ix.buckets[t := bucket]
    && ix'.provenBounds == ix.provenBounds[TierIndex(t) := ProvenPrefix(bucket)]
    && Found(ix'.positions, t, bucket)
    && (forall id | id in ix'.positions :: KeptElsewhere(ix, t, ix', id) || Holds(bucket, id))
    && (forall id | id in ix.positions && ix.positions[id].tier != t :: KeptElsewhere(ix, t, ix', id))
  }

  lemma ReplacementFound(ix: Index, t: Tier, bucket: seq<Entry>, ix': Index, u: Tier)
    requires WellFormed(ix) && t in INDEXED && u in INDEXED && BucketReplaced(ix, t, bucket, ix')
    ensures Found(ix'.positions, u, ix'.buckets[u])
  {
    if u != t {
      var b := ix.buckets[u];
      assert Found(ix.positions, u, b);
      forall i | 0 <= i < |b|
        ensures b[i].dbID in ix'.positions && ix'.positions[b[i].dbID] == Position(u, i)
      {
        assert ix.positions[b[i].dbID] == Position(u, i);
        assert KeptElsewhere(ix, t, ix', b[i].dbID);
      }
    }
  }

  lemma ReplacementPlaced(ix: Index, t: Tier, bucket: seq<Entry>, ix': Index, id: int)
    requires WellFormed(ix) && t in INDEXED && BucketReplaced(ix, t, bucket, ix')
    requires id in ix'.positions
    ensures Placed(ix', id)
  {
    if KeptElsewhere(ix, t, ix', id) {
      assert Placed(ix, id);
    } else {
      assert Holds(bucket, id);
    }
  }

  lemma ReplacementWellFormed(ix: Index, t: Tier, bucket: seq<Entry>, ix': Index)
    requires WellFormed(ix) && t in INDEXED && BucketReplaced(ix, t, bucket, ix')
    requires BucketOk(bucket)
    ensures WellFormed(ix')
  {
    hide Found, Placed, BucketOk, KeptElsewhere, Holds, ProvenPrefix;
    forall u | u in INDEXED
      ensures Found(ix'.positions, u, ix'.buckets[u])
    {
      ReplacementFound(ix, t, bucket, ix', u);
    }
    forall id | id in ix'.positions
      ensures Placed(ix', id)
    {
      ReplacementPlaced(ix, t, bucket, ix', id);
    }
  }

  /** The contents after a replacement, given the slots wanted in bucket `t` and unchanged slots elsewhere. */
  lemma ReplacementContents(ix: Index, t: Tier, bucket: seq<Entry>, ix': Index, want: map<int, Slot>)
    requires WellFormed(ix) && WellFormed(ix') && t in INDEXED && ix'.buckets == ix.buckets[t := bucket]
    requires forall e :: e in bucket <==> e.dbID in want && want[e.dbID] == Slot(t, e)
    requires forall id | id in want :: want[id].entry.dbID == id && want[id].tier in INDEXED
    requires forall id | id in want && want[id].tier != t :: id in Contents(ix) && Contents(ix)[id] == want[id]
    requires forall id | id in Contents(ix) && Contents(ix)[id].tier != t :: id in want && Contents(ix)[id] == want[id]
    ensures Contents(ix') == want
  {
    hide BucketOk, Found, ProvenPrefix;
    forall id
      ensures id in Contents(ix') <==> id in want
      ensures id in want ==> Contents(ix')[id] == want[id]
    {
      if id in Contents(ix') {
        assert Placed(ix', id);
        var s := Contents(ix')[id];
        InBucket(ix', s.tier, s.entry);
        InBucket(ix, s.tier, s.entry);
      }
      if id in want {
        var s := want[id];
        InBucket(ix, s.tier, s.entry);
        InBucket(ix', s.tier, s.entry);
      }
    }
  }

  function Without(bucket: seq<Entry>, k: nat): seq<Entry>
    requires k < |bucket|
  {
    bucket[..k] + bucket[k + 1..]
  }

  lemma WithoutHolds(bucket: seq<Entry>, k: nat, x: Entry)
    requires k < |bucket| && Distinct(bucket)
    ensures x in Without(bucket, k) <==> x in bucket && x != bucket[k]
  {
    var b' := Without(bucket, k);
    if x in bucket && x != bucket[k] {
      var i :| 0 <= i < |bucket| && bucket[i] == x;
      assert b'[if i < k then i else i - 1] == x;
    }
    if x in b' {
      var i :| 0 <= i < |b'| && b'[i] == x;
      assert bucket[if i < k then i else i + 1] == x;
    }
  }

  lemma WithoutOk(bucket: seq<Entry>, k: nat)
    requires k < |bucket| && BucketOk(bucket)
    ensures BucketOk(Without(bucket, k))
  {
    var b' := Without(bucket, k);
    assert forall i | 0 <= i < |b'| :: b'[i] == bucket[if i < k then i else i + 1];
  }

  lemma BucketDistinct(bucket: seq<Entry>)
    requires Sorted(Before, bucket)
    ensures Distinct(bucket)
  {
    forall i, j | 0 <= i < j < |bucket|
      ensures bucket[i] != bucket[j]
    {
      assert Before(bucket[i], bucket[j]);
    }
  }

  lemma TakenOut(ix: Index, id: int, ix': Index)
    requires WellFormed(ix) && id in ix.positions && Placed(ix, id)
    requires BucketReplaced(ix, ix.positions[id].tier,
                            Without(ix.buckets[ix.positions[id].tier], ix.positions[id].index), ix')
    ensures WellFormed(ix') && Contents(ix') == Contents(ix) - {id}
  {
    hide Without, ProvenPrefix, Found, Sorted;
    var p := ix.positions[id];
    var b := ix.buckets[p.tier];
    var b' := Without(b, p.index);
    assert BucketOk(b);
    WithoutOk(b, p.index);
    BucketDistinct(b);
    ReplacementWellFormed(ix, p.tier, b', ix');
    forall e
      ensures e in b' <==> e.dbID != id && e.dbID in Contents(ix) && Contents(ix)[e.dbID] == Slot(p.tier, e)
    {
      WithoutHolds(b, p.index, e);
      InBucket(ix, p.tier, e);
    }
    forall other | other in Contents(ix)
      ensures Contents(ix)[other].entry.dbID == other && Contents(ix)[other].tier in INDEXED
    {
      assert Placed(ix, other);
    }
    ReplacementContents(ix, p.tier, b', ix', Contents(ix) - {id});
  }

  lemma IdsDistinct(ix: Index, t: Tier, e: Entry)
    requires WellFormed(ix) && t in INDEXED && e.dbID !in ix.positions
    ensures forall x, y | x in ix.buckets[t] + [e] && y in ix.buckets[t] + [e] && x != y :: x.dbID != y.dbID
    ensures e !in ix.buckets[t]
  {
    hide ProvenPrefix, Found, BucketOk;
    InBucket(ix, t, e);
    forall x, y | x in ix.buckets[t] + [e] && y in ix.buckets[t] + [e] && x != y
      ensures x.dbID != y.dbID
    {
      InBucket(ix, t, x);
      InBucket(ix, t, y);
    }
  }

  /** `b'` holds the entries of `b` and `e`, in some order. */
  ghost predicate OneMore(b: seq<Entry>, e: Entry, b': seq<Entry>) {
    && (forall i | 0 <= i < |b'| :: b'[i] in b || b'[i] == e)
    && (forall i | 0 <= i < |b| :: b[i] in b')
    && e in b'
  }

  lemma SortedInsertion(bucket: seq<Entry>, e: Entry)
    requires BucketOk(bucket) && e.acc.dbID == e.dbID != 0 && e !in bucket
    requires forall x, y | x in bucket + [e] && y in bucket + [e] && x != y :: x.dbID != y.dbID
    ensures var b' := StableSort(Before, bucket + [e]); BucketOk(b') && OneMore(bucket, e, b')
  {
    var all := bucket + [e];
    var b' := StableSort(Before, all);
    SortKeepsElements(Before, all);
    assert forall i | 0 <= i < |bucket| :: bucket[i] == all[i];
    assert all[|bucket|] == e;
    BeforeIsOrder(all);
    BucketDistinct(bucket);
    SortSorts(Before, all);
    forall i | 0 <= i < |b'|
      ensures b'[i].acc.dbID == b'[i].dbID != 0
    {
      assert b'[i] in all;
    }
  }

  lemma PutIn(ix: Index, slot: Slot, ix': Index)
    requires WellFormed(ix) && slot.tier in INDEXED
    requires slot.entry.acc.dbID == slot.entry.dbID != 0 && slot.entry.dbID !in ix.positions
    requires BucketReplaced(ix, slot.tier, StableSort(Before, ix.buckets[slot.tier] + [slot.entry]), ix')
    ensures WellFormed(ix') && Contents(ix') == Contents(ix)[slot.entry.dbID := slot]
  {
    hide ProvenPrefix, Found, BucketOk;
    var t, e := slot.tier, slot.entry;
    var b' := StableSort(Before, ix.buckets[t] + [e]);
    var want := Contents(ix)[e.dbID := slot];
    assert BucketOk(ix.buckets[t]);
    IdsDistinct(ix, t, e);
    SortedInsertion(ix.buckets[t], e);
    ReplacementWellFormed(ix, t, b', ix');
    forall x
      ensures x in b' <==> x.dbID in want && want[x.dbID] == Slot(t, x)
    {
      InBucket(ix, t, x);
    }
    forall other | other in Contents(ix)
      ensures Contents(ix)[other].entry.dbID == other && Contents(ix)[other].tier in INDEXED
    {
      assert Placed(ix, other);
    }
    ReplacementContents(ix, t, b', ix', want);
  }

  ghost predicate DistinctIds(b: seq<Entry>) {
    forall i, j | 0 <= i < j < |b| :: b[i].dbID != b[j].dbID
  }

  lemma PositionsDistinct(ix: Index, t: Tier, k: nat)
    requires WellFormed(ix) && t in INDEXED && k < |ix.buckets[t]|
    ensures var b := Without(ix.buckets[t], k);
            && DistinctIds(b)
            && !Holds(b, ix.buckets[t][k].dbID)
  {
    var b := ix.buckets[t];
    assert Found(ix.positions, t, b);
    var b' := Without(b, k);
    assert forall i | 0 <= i < |b'| :: b'[i] == b[if i < k then i else i + 1];
  }

  ghost predicate Recounted(was: map<int, Position>, t: Tier, bucket: seq<Entry>, positions: map<int, Position>) {
    && Found(positions, t, bucket)
    && (forall id | id in positions :: Holds(bucket, id) || (id in was && positions[id] == was[id]))
    && (forall id | id in was :: id in positions)
    && (forall id | id in was && !Holds(bucket, id) :: positions[id] == was[id])
  }

  lemma RecountReplaces(ix: Index, t: Tier, was: map<int, Position>, bucket: seq<Entry>, ix': Index)
    requires WellFormed(ix) && t in INDEXED
    requires forall id | id in was :: id in ix.positions && was[id] == ix.positions[id]
    requires forall id | id in was && was[id].tier == t :: Holds(bucket, id)
    requires forall id | id in ix.positions && ix.positions[id].tier != t :: id in was && !Holds(bucket, id)
    requires ix'.buckets == ix.buckets[t := bucket]
    requires ix'.provenBounds == ix.provenBounds[TierIndex(t) := ProvenPrefix(bucket)]
    requires Recounted(was, t, bucket, ix'.positions)
    ensures BucketReplaced(ix, t, bucket, ix')
  {
    hide Holds, Found, Placed, BucketOk, ProvenPrefix;
    forall id | id in ix'.positions
      ensures KeptElsewhere(ix, t, ix', id) || Holds(bucket, id)
    {
    }
  }

  lemma OthersStay(ix: Index, id: int, other: int)
    requires WellFormed(ix) && id in ix.positions && Placed(ix, id) && other in ix.positions && other != id
    ensures var p := ix.positions[id];
      Holds(Without(ix.buckets[p.tier], p.index), other) <==> ix.positions[other].tier == p.tier
  {
    hide BucketOk, ProvenPrefix;
    var p, q := ix.positions[id], ix.positions[other];
    var b := ix.buckets[p.tier];
    var b' := Without(b, p.index);
    assert Found(ix.positions, p.tier, b) && Placed(ix, other);
    if q.tier == p.tier {
      assert b'[if q.index < p.index then q.index else q.index - 1] == b[q.index];
    }
    if Holds(b', other) {
      var i :| 0 <= i < |b'| && b'[i].dbID == other;
      assert b'[i] == b[if i < p.index then i else i + 1];
    }
  }

  lemma RemovalReplaces(ix: Index, id: int, ix': Index)
    requires WellFormed(ix) && id in ix.positions && Placed(ix, id)
    requires var p := ix.positions[id];
             var b := Without(ix.buckets[p.tier], p.index);
             && ix'.buckets == ix.buckets[p.tier := b]
             && ix'.provenBounds == ix.provenBounds[TierIndex(p.tier) := ProvenPrefix(b)]
             && Recounted(ix.positions - {id}, p.tier, b, ix'.positions)
    ensures var p := ix.positions[id]; BucketReplaced(ix, p.tier, Without(ix.buckets[p.tier], p.index), ix')
  {
    var p := ix.positions[id];
    hide WellFormed, Holds, Found, Recounted, BucketReplaced, Without, ProvenPrefix;
    forall other | other in ix.positions && other != id
      ensures Holds(Without(ix.buckets[p.tier], p.index), other) <==> ix.positions[other].tier == p.tier
    {
      OthersStay(ix, id, other);
    }
    RecountReplaces(ix, p.tier, ix.positions - {id}, Without(ix.buckets[p.tier], p.index), ix');
  }

  lemma InsertionReplaces(ix: Index, slot: Slot, ix': Index)
    requires WellFormed(ix) && slot.tier in INDEXED && slot.entry.dbID !in ix.positions
    requires var b := StableSort(Before, ix.buckets[slot.tier] + [slot.entry]);
             && OneMore(ix.buckets[slot.tier], slot.entry, b)
             && ix'.buckets == ix.buckets[slot.tier := b]
             && ix'.provenBounds == ix.provenBounds[TierIndex(slot.tier) := ProvenPrefix(b)]
             && Recounted(ix.positions, slot.tier, b, ix'.positions)
    ensures BucketReplaced(ix, slot.tier, StableSort(Before, ix.buckets[slot.tier] + [slot.entry]), ix')
  {
    var t := slot.tier;
    var b := ix.buckets[t];
    var b' := StableSort(Before, b + [slot.entry]);
    assert Found(ix.positions, t, b);
    forall other | other in ix.positions
      ensures Holds(b', other) <==> ix.positions[other].tier == t
    {
      assert Placed(ix, other);
      var q := ix.positions[other];
      if q.tier == t {
        assert b[q.index] in b';
      }
      if Holds(b', other) {
        var i :| 0 <= i < |b'| && b'[i].dbID == other;
      }
    }
    RecountReplaces(ix, t, ix.positions, b', ix');
  }

  lemma InsertionDistinct(ix: Index, slot: Slot)
    requires WellFormed(ix) && slot.tier in INDEXED && slot.entry.dbID !in ix.positions
    requires slot.entry.acc.dbID == slot.entry.dbID != 0
    ensures var b := StableSort(Before, ix.buckets[slot.tier] + [slot.entry]);
            && DistinctIds(b)
            && OneMore(ix.buckets[slot.tier], slot.entry, b)
  {
    hide Found, ProvenPrefix, Placed;
    var all := ix.buckets[slot.tier] + [slot.entry];
    var b := StableSort(Before, all);
    assert BucketOk(ix.buckets[slot.tier]);
    IdsDistinct(ix, slot.tier, slot.entry);
    SortedInsertion(ix.buckets[slot.tier], slot.entry);
    BucketDistinct(b);
    forall i, j | 0 <= i < j < |b|
      ensures b[i].dbID != b[j].dbID
    {
      assert b[i] in all && b[j] in all;
    }
  }

  // ---------------------------------------------------------------- rebuilding from scratch

  ghost function FreshMap(accounts: seq<Account?>, baseLimit: int, now: Instant): (snaps: map<Account, Snapshot>)
    requires forall a: Account | a in accounts :: a.Valid()
    reads set a: Account | a in accounts
    ensures Covers(snaps, accounts)
  {
    map a: Account | a in accounts :: a.Fresh(baseLimit, now)
  }

  /** Accounts with an id have distinct ids. */
  ghost predicate NoRepeats(accounts: seq<Account?>) {
    forall i, j | 0 <= i < j < |accounts| && accounts[i] != null && accounts[j] != null && accounts[i].dbID != 0 ::
      accounts[i].dbID != accounts[j].dbID
  }

  ghost predicate WantOk(want: map<int, Slot>) {
    forall id | id in want ::
      want[id].tier in INDEXED && want[id].entry.dbID == id == want[id].entry.acc.dbID && id != 0
  }

  /** Bucket `t` holds exactly the entries wanted there, each once, in any order. */
  ghost predicate Bucketful(b: seq<Entry>, t: Tier, want: map<int, Slot>) {
    && (forall i | 0 <= i < |b| :: b[i].dbID in want && want[b[i].dbID] == Slot(t, b[i]))
    && (forall id | id in want && want[id].tier == t :: want[id].entry in b)
    && DistinctIds(b)
  }

  ghost predicate IdFree(accounts: seq<Account?>, id: int) {
    forall a: Account | a in accounts :: a.dbID != id
  }

  lemma EmptyBucketful()
    ensures WantOk(map[]) && forall t :: Bucketful([], t, map[])
  {
  }

  lemma {:induction false} WantedByOk(accounts: seq<Account?>, snaps: map<Account, Snapshot>, id: int)
    requires Covers(snaps, accounts)
    ensures WantOk(WantedBy(accounts, snaps))
    ensures IdFree(accounts, id) ==> id !in WantedBy(accounts, snaps)
  {
    if accounts != [] {
      WantedByOk(accounts[..|accounts| - 1], snaps, id);
      var a := accounts[|accounts| - 1];
      assert a in accounts;
      assert forall x: Account | x in accounts[..|accounts| - 1] :: x in accounts;
    }
  }

  lemma BucketfulGrows(b: seq<Entry>, t: Tier, want: map<int, Slot>, slot: Slot)
    requires WantOk(want) && Bucketful(b, t, want) && slot.entry.dbID !in want
    ensures Bucketful(if slot.tier == t then b + [slot.entry] else b, t, want[slot.entry.dbID := slot])
  {
    var b' := if slot.tier == t then b + [slot.entry] else b;
    var want' := want[slot.entry.dbID := slot];
    forall id | id in want' && want'[id].tier == t
      ensures want'[id].entry in b'
    {
      if id == slot.entry.dbID {
        assert b'[|b|] == slot.entry;
      } else {
        assert want[id].entry in b;
      }
    }
  }

  lemma BucketfulSorted(b: seq<Entry>, t: Tier, want: map<int, Slot>)
    requires WantOk(want) && Bucketful(b, t, want)
    ensures var b' := StableSort(Before, b); BucketOk(b') && Bucketful(b', t, want)
  {
    var b' := StableSort(Before, b);
    SortKeepsElements(Before, b);
    BeforeIsOrder(b);
    SortSorts(Before, b);
    BucketDistinct(b');
    forall id | id in want && want[id].tier == t
      ensures want[id].entry in b'
    {
      assert want[id].entry in b;
    }
    forall i, j | 0 <= i < j < |b'|
      ensures b'[i].dbID != b'[j].dbID
    {
      assert b'[i] in b && b'[j] in b;
    }
  }

  ghost predicate HeldIn(buckets: map<Tier, seq<Entry>>, tiers: set<Tier>, id: int)
    requires buckets.Keys == INDEXED
  {
    exists t :: t in INDEXED && t in tiers && Holds(buckets[t], id)
  }

  lemma WantedIds(want: map<int, Slot>)
    requires WantOk(want)
    ensures forall id | id in want :: want[id].tier in INDEXED && want[id].entry.dbID == id
  {
  }

  lemma FilledWellFormed(ix: Index, want: map<int, Slot>)
    requires ix.buckets.Keys == INDEXED && |ix.provenBounds| == 3 && WantOk(want)
    requires forall t | t in INDEXED :: BucketOk(ix.buckets[t]) && Bucketful(ix.buckets[t], t, want)
    requires forall t | t in INDEXED :: ix.provenBounds[TierIndex(t)] == ProvenPrefix(ix.buckets[t])
    requires forall t | t in INDEXED :: Found(ix.positions, t, ix.buckets[t])
    requires forall id | id in ix.positions :: HeldIn(ix.buckets, INDEXED, id)
    ensures WellFormed(ix) && Contents(ix) == want
  {
    hide BucketOk, ProvenPrefix, WantOk, DistinctIds;
    assert forall id | id in want :: want[id].tier in INDEXED && want[id].entry.dbID == id by { WantedIds(want); }
    forall id | id in ix.positions
      ensures Placed(ix, id) && id in want
      ensures want[id] == Slot(ix.positions[id].tier, ix.buckets[ix.positions[id].tier][ix.positions[id].index])
    {
      var t :| t in INDEXED && Holds(ix.buckets[t], id);
      assert Found(ix.positions, t, ix.buckets[t]) && Bucketful(ix.buckets[t], t, want);
    }
    forall id | id in want
      ensures id in ix.positions
    {
      var t := want[id].tier;
      assert Bucketful(ix.buckets[t], t, want) && Found(ix.positions, t, ix.buckets[t]);
      assert want[id].entry in ix.buckets[t];
    }
    assert WellFormed(ix);
    assert forall id :: id in Contents(ix) <==> id in want;
    assert forall id | id in want :: Contents(ix)[id] == want[id];
  }

  /** Filing another bucket leaves the buckets already filed where they were. */
  lemma StillFound(positions: map<int, Position>, positions': map<int, Position>, t: Tier, b: seq<Entry>, u: Tier,
                   c: seq<Entry>, want: map<int, Slot>)
    requires t != u && Found(positions, t, b) && Recounted(positions, u, c, positions')
    requires Bucketful(b, t, want) && Bucketful(c, u, want)
    ensures Found(positions', t, b)
  {
    forall i | 0 <= i < |b|
      ensures !Holds(c, b[i].dbID)
    {
      assert want[b[i].dbID].tier == t;
    }
  }

  ghost predicate Filed(ix: Index, t: Tier)
    requires ix.buckets.Keys == INDEXED && |ix.provenBounds| == 3 && t in INDEXED
  {
    && BucketOk(ix.buckets[t])
    && Found(ix.positions, t, ix.buckets[t])
    && ix.provenBounds[TierIndex(t)] == ProvenPrefix(ix.buckets[t])
  }

  lemma EmptyFiled(positions: map<int, Position>, t: Tier)
    ensures BucketOk([]) && Found(positions, t, []) && ProvenPrefix([]) == 0
  {
  }

  lemma RecountFound(was: map<int, Position>, t: Tier, b: seq<Entry>, positions: map<int, Position>)
    requires Recounted(was, t, b, positions)
    ensures Found(positions, t, b)
    ensures forall id | id in positions :: Holds(b, id) || id in was
  {
  }

  /** The state between two turns: the tiers in `done` are sorted, counted and indexed. */
  ghost predicate Filing(ix: Index, want: map<int, Slot>, done: set<Tier>) {
    && ix.buckets.Keys == INDEXED && |ix.provenBounds| == 3
    && WantOk(want)
    && (forall t | t in INDEXED :: Bucketful(ix.buckets[t], t, want))
    && (forall t | t in done && t in INDEXED :: Filed(ix, t))
    && (forall id | id in ix.positions :: HeldIn(ix.buckets, done, id))
  }

  lemma StartFiling(ix: Index, want: map<int, Slot>)
    requires ix.buckets.Keys == INDEXED && |ix.provenBounds| == 3 && ix.positions == map[] && WantOk(want)
    requires forall t | t in INDEXED :: Bucketful(ix.buckets[t], t, want)
    ensures Filing(ix, want, {})
  {
  }

  lemma EndFiling(ix: Index, want: map<int, Slot>, done: set<Tier>)
    requires Filing(ix, want, done) && INDEXED <= done
    ensures WellFormed(ix) && Contents(ix) == want
  {
    hide Bucketful, WantOk, BucketOk, Found, Holds, ProvenPrefix;
    forall id | id in ix.positions
      ensures HeldIn(ix.buckets, INDEXED, id)
    {
      assert HeldIn(ix.buckets, done, id);
    }
    FilledWellFormed(ix, want);
  }

  lemma FilingBasics(ix: Index, want: map<int, Slot>, done: set<Tier>, tier: Tier)
    requires Filing(ix, want, done) && tier in INDEXED
    ensures ix.buckets.Keys == INDEXED && |ix.provenBounds| == 3
    ensures DistinctIds(StableSort(Before, ix.buckets[tier]))
  {
    hide BucketOk, Found, Holds, ProvenPrefix, HeldIn;
    BucketfulSorted(ix.buckets[tier], tier, want);
  }

  lemma EmptyStep(ix: Index, want: map<int, Slot>, done: set<Tier>, tier: Tier, ix': Index)
    requires Filing(ix, want, done) && tier in INDEXED && tier !in done && ix.buckets[tier] == []
    requires ix' == ix.(provenBounds := ix.provenBounds[TierIndex(tier) := 0])
    ensures Filing(ix', want, done + {tier})
  {
    hide Bucketful, WantOk, BucketOk, Found, Holds, ProvenPrefix;
    EmptyFiled(ix.positions, tier);
  }

  lemma StillHeld(was: map<Tier, seq<Entry>>, buckets: map<Tier, seq<Entry>>, done: set<Tier>, tier: Tier, id: int)
    requires was.Keys == buckets.Keys == INDEXED && tier in INDEXED && tier !in done
    requires forall t | t in INDEXED && t != tier :: buckets[t] == was[t]
    requires HeldIn(was, done, id) || Holds(buckets[tier], id)
    ensures HeldIn(buckets, done + {tier}, id)
  {
  }

  lemma FilingStep(ix: Index, want: map<int, Slot>, done: set<Tier>, tier: Tier, ix': Index)
    requires Filing(ix, want, done) && tier in INDEXED && tier !in done
    requires var b := StableSort(Before, ix.buckets[tier]);
             && ix'.buckets == ix.buckets[tier := b]
             && ix'.provenBounds == ix.provenBounds[TierIndex(tier) := ProvenPrefix(b)]
             && Recounted(ix.positions, tier, b, ix'.positions)
    ensures Filing(ix', want, done + {tier})
  {
    hide Bucketful, WantOk, BucketOk, Found, Holds, ProvenPrefix, HeldIn, Recounted;
    var b := ix'.buckets[tier];
    BucketfulSorted(ix.buckets[tier], tier, want);
    RecountFound(ix.positions, tier, b, ix'.positions);
    forall t | t in done && t in INDEXED
      ensures Found(ix'.positions, t, ix'.buckets[t])
    {
      assert Filed(ix, t);
      StillFound(ix.positions, ix'.positions, t, ix.buckets[t], tier, b, want);
    }
    forall id | id in ix'.positions
      ensures HeldIn(ix'.buckets, done + {tier}, id)
    {
      StillHeld(ix.buckets, ix'.buckets, done, tier, id);
    }
  }
}
