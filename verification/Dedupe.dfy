/** Finding duplicate accounts: rows are bucketed by normalised (email, platform), each bucket of two or more
    is ordered by worth, and the groups are listed by key. */
module Dedupe {
  import opened Sorting
  import opened Wrappers

  datatype Row = Row(id: int, email: string, platform: string, plan: string, hasRefreshToken: bool, locked: bool,
                     status: string)

  datatype Key = Key(email: string, platform: string)

  datatype Group = Group(email: string, platform: string, winner: Row, losers: seq<Row>, total: nat)

  /** Lower-casing and trimming, when each account was last used, and the time of the run. */
  datatype Setting = Setting(normal: string -> string, lastUsed: int -> Option<int>, now: int)

  const RECENT := 7 * 24 * 3600 * 1000

  // ---------------------------------------------------------------- worth of a row

  predicate PaidPlan(c: Setting, row: Row) {
    c.normal(row.plan) != "" && c.normal(row.plan) != "free"
  }

  predicate RecentlyUsed(c: Setting, row: Row) {
    c.lastUsed(row.id).Some? && c.now - c.lastUsed(row.id).value < RECENT
  }

  method ScoreAccount(c: Setting, row: Row) returns (score: int)
    ensures score == Score(c, row)
  {
    score := 0;
    if row.hasRefreshToken {
      score := score + 100;
    }
    if PaidPlan(c, row) {
      score := score + 50;
    }
    if row.locked {
      score := score + 30;
    }
    if row.status == "active" {
      score := score + 10;
    }
    if RecentlyUsed(c, row) {
      score := score + 5;
    }
  }

  function Worth(flag: bool, points: int): int {
    if flag then points else 0
  }

  function Score(c: Setting, row: Row): int {
    Worth(row.hasRefreshToken, 100) + Worth(PaidPlan(c, row), 50) + Worth(row.locked, 30) +
    Worth(row.status == "active", 10) + Worth(RecentlyUsed(c, row), 5)
  }

  datatype Criteria = Criteria(refreshToken: bool, paid: bool, locked: bool, active: bool, recent: bool)

  function CriteriaOf(c: Setting, row: Row): Criteria {
    Criteria(row.hasRefreshToken, PaidPlan(c, row), row.locked, row.status == "active", RecentlyUsed(c, row))
  }

  /** The weightiest criterion on which they differ is met by `a`. */
  predicate FirstDifferenceFavours(a: Criteria, b: Criteria) {
    if a.refreshToken != b.refreshToken then a.refreshToken
    else if a.paid != b.paid then a.paid
    else if a.locked != b.locked then a.locked
    else if a.active != b.active then a.active
    else a.recent && !b.recent
  }

  /** No number of lesser criteria outweighs a greater one: scores compare as the criteria do in order. */
  lemma ScoreIsLexicographic(c: Setting, a: Row, b: Row)
    ensures Score(c, a) > Score(c, b) <==> FirstDifferenceFavours(CriteriaOf(c, a), CriteriaOf(c, b))
    ensures Score(c, a) == Score(c, b) <==> CriteriaOf(c, a) == CriteriaOf(c, b)
  {
    hide PaidPlan, RecentlyUsed;
  }

  predicate Better(c: Setting, a: Row, b: Row) {
    if Score(c, a) != Score(c, b) then Score(c, a) > Score(c, b) else a.id < b.id
  }

  function BetterIn(c: Setting): (Row, Row) -> bool {
    (a, b) => Better(c, a, b)
  }

  ghost predicate DistinctIDs(rows: seq<Row>) {
    forall i, j | 0 <= i < j < |rows| :: rows[i].id != rows[j].id
  }

  lemma BetterIsStrictOrder(c: Setting, rows: seq<Row>)
    requires DistinctIDs(rows)
    ensures StrictOrderOn(BetterIn(c), rows) && Distinct(rows)
  {
    hide Score;
    forall a, b | a in rows && b in rows && a != b
      ensures Better(c, a, b) || Better(c, b, a)
    {
      assert a.id != b.id;
    }
  }

  // ---------------------------------------------------------------- keys

  /** What a row is grouped by; rows without an email are not grouped. */
  function KeyOf(c: Setting, row: Row): Option<Key> {
    var email, platform := c.normal(row.email), c.normal(row.platform);
    if email == "" then None else Some(Key(email, if platform == "" then "openai" else platform))
  }

  /** The rows with a key, in their order. */
  function RowsOf(c: Setting, rows: seq<Row>, key: Key): (r: seq<Row>)
    ensures forall x :: x in r <==> x in rows && KeyOf(c, x) == Some(key)
  {
    if rows == [] then []
    else
      RowsOf(c, rows[..|rows| - 1], key) +
      if KeyOf(c, rows[|rows| - 1]) == Some(key) then [rows[|rows| - 1]] else []
  }

  /** Byte order of strings. */
  predicate StringLess(a: string, b: string) {
    b != "" && (a == "" || a[0] < b[0] || (a[0] == b[0] && StringLess(a[1..], b[1..])))
  }

  lemma {:induction false} StringLessTotal(a: string, b: string)
    ensures !(StringLess(a, b) && StringLess(b, a)) && (StringLess(a, b) || StringLess(b, a) || a == b)
  {
    if a != "" && b != "" && a[0] == b[0] {
      StringLessTotal(a[1..], b[1..]);
      assert a == [a[0]] + a[1..] && b == [b[0]] + b[1..];
    }
  }

  lemma {:induction false} StringLessTransitive(a: string, b: string, d: string)
    requires StringLess(a, b) && StringLess(b, d)
    ensures StringLess(a, d)
  {
    if a != "" && a[0] == b[0] && b[0] == d[0] {
      StringLessTransitive(a[1..], b[1..], d[1..]);
    }
  }

  predicate KeyLess(a: Key, b: Key) {
    if a.email != b.email then StringLess(a.email, b.email) else StringLess(a.platform, b.platform)
  }

  function GroupKey(g: Group): Key {
    Key(g.email, g.platform)
  }

  function GroupLess(): (Group, Group) -> bool {
    (a, b) => KeyLess(GroupKey(a), GroupKey(b))
  }

  lemma GroupLessIsStrictOrder(groups: seq<Group>)
    requires forall i, j | 0 <= i < j < |groups| :: GroupKey(groups[i]) != GroupKey(groups[j])
    ensures StrictOrderOn(GroupLess(), groups) && Distinct(groups)
  {
    forall a, b | a in groups && b in groups
      ensures !(KeyLess(GroupKey(a), GroupKey(b)) && KeyLess(GroupKey(b), GroupKey(a)))
      ensures a != b ==> KeyLess(GroupKey(a), GroupKey(b)) || KeyLess(GroupKey(b), GroupKey(a))
    {
      StringLessTotal(a.email, b.email);
      StringLessTotal(a.platform, b.platform);
    }
    forall a, b, d | a in groups && b in groups && d in groups &&
                     KeyLess(GroupKey(a), GroupKey(b)) && KeyLess(GroupKey(b), GroupKey(d))
      ensures KeyLess(GroupKey(a), GroupKey(d))
    {
      KeyLessTransitive(GroupKey(a), GroupKey(b), GroupKey(d));
    }
  }

  lemma KeyLessTransitive(a: Key, b: Key, d: Key)
    requires KeyLess(a, b) && KeyLess(b, d)
    ensures KeyLess(a, d)
  {
    StringLessTotal(a.email, b.email);
    StringLessTotal(a.email, d.email);
    if a.email != b.email && b.email != d.email {
      StringLessTransitive(a.email, b.email, d.email);
    } else if a.email == b.email == d.email {
      StringLessTransitive(a.platform, b.platform, d.platform);
    }
  }

  // ---------------------------------------------------------------- groups

  function GroupFor(c: Setting, rows: seq<Row>, key: Key): Group
    requires |RowsOf(c, rows, key)| >= 2
  {
    SortKeepsElements(BetterIn(c), RowsOf(c, rows, key));
    var bucket := StableSort(BetterIn(c), RowsOf(c, rows, key));
    Group(key.email, key.platform, bucket[0], bucket[1..], |bucket|)
  }

  /** The duplicate groups of `rows`: one for each key with at least two rows, in the order of the keys. */
  ghost predicate AreDuplicateGroups(c: Setting, rows: seq<Row>, groups: seq<Group>) {
    && Sorted(GroupLess(), groups)
    && (forall i | 0 <= i < |groups| ::
          |RowsOf(c, rows, GroupKey(groups[i]))| >= 2 && groups[i] == GroupFor(c, rows, GroupKey(groups[i])))
    && (forall key | |RowsOf(c, rows, key)| >= 2 :: GroupFor(c, rows, key) in groups)
  }

  // ---------------------------------------------------------------- what the groups are good for

  lemma {:induction false} RowsOfDistinct(c: Setting, rows: seq<Row>, key: Key)
    requires DistinctIDs(rows)
    ensures DistinctIDs(RowsOf(c, rows, key))
  {
    if rows != [] {
      var n := |rows| - 1;
      RowsOfDistinct(c, rows[..n], key);
      var front := RowsOf(c, rows[..n], key);
      forall i | 0 <= i < |front|
        ensures front[i].id != rows[n].id
      {
        assert front[i] in rows[..n];
      }
    }
  }

  /** The winner is better than every loser, and winner and losers together are the rows with the key. */
  lemma GroupOfKey(c: Setting, rows: seq<Row>, key: Key)
    requires DistinctIDs(rows) && |RowsOf(c, rows, key)| >= 2
    ensures var g := GroupFor(c, rows, key);
      && GroupKey(g) == key && multiset([g.winner] + g.losers) == multiset(RowsOf(c, rows, key))
      && (forall i | 0 <= i < |g.losers| :: Better(c, g.winner, g.losers[i]))
      && Sorted(BetterIn(c), g.losers) && g.total == |g.losers| + 1
  {
    hide Better, RowsOf, StableSort;
    var bucket := RowsOf(c, rows, key);
    RowsOfDistinct(c, rows, key);
    BetterIsStrictOrder(c, bucket);
    SortKeepsElements(BetterIn(c), bucket);
    SortSorts(BetterIn(c), bucket);
    var sorted := StableSort(BetterIn(c), bucket);
    assert sorted == [sorted[0]] + sorted[1..];
    assert forall i | 0 <= i < |sorted| - 1 :: BetterIn(c)(sorted[0], sorted[1..][i]);
  }

  /** A row is in a group exactly when another row has the same key, and then in the group of its key only. */
  lemma GroupsPartitionDuplicates(c: Setting, rows: seq<Row>, groups: seq<Group>, row: Row)
    requires DistinctIDs(rows) && AreDuplicateGroups(c, rows, groups)
    ensures (exists i :: 0 <= i < |groups| && row in [groups[i].winner] + groups[i].losers) <==>
      row in rows && KeyOf(c, row).Some? && |RowsOf(c, rows, KeyOf(c, row).value)| >= 2
    ensures forall i, j | 0 <= i < |groups| && 0 <= j < |groups| && row in [groups[i].winner] + groups[i].losers &&
      row in [groups[j].winner] + groups[j].losers :: i == j
  {
    hide RowsOf, GroupFor, KeyLess;
    forall i | 0 <= i < |groups|
      ensures row in [groups[i].winner] + groups[i].losers <==>
        row in rows && KeyOf(c, row) == Some(GroupKey(groups[i]))
    {
      GroupOfKey(c, rows, GroupKey(groups[i]));
      MembersOfGroup(c, rows, groups[i], row);
    }
    forall i, j | 0 <= i < |groups| && 0 <= j < |groups| && GroupKey(groups[i]) == GroupKey(groups[j])
      ensures i == j
    {
      KeyLessIrreflexive(GroupKey(groups[i]));
    }
    if row in rows && KeyOf(c, row).Some? && |RowsOf(c, rows, KeyOf(c, row).value)| >= 2 {
      var g := GroupFor(c, rows, KeyOf(c, row).value);
      GroupOfKey(c, rows, KeyOf(c, row).value);
      var i :| 0 <= i < |groups| && groups[i] == g;
    }
  }

  lemma MembersOfGroup(c: Setting, rows: seq<Row>, g: Group, row: Row)
    requires multiset([g.winner] + g.losers) == multiset(RowsOf(c, rows, GroupKey(g)))
    ensures row in [g.winner] + g.losers <==> row in rows && KeyOf(c, row) == Some(GroupKey(g))
  {
    assert row in [g.winner] + g.losers <==> row in multiset([g.winner] + g.losers);
    assert row in RowsOf(c, rows, GroupKey(g)) <==> row in multiset(RowsOf(c, rows, GroupKey(g)));
  }

  lemma KeyLessIrreflexive(key: Key)
    ensures !KeyLess(key, key)
  {
    StringLessTotal(key.email, key.email);
    StringLessTotal(key.platform, key.platform);
  }

  /** What is left of `rows` when every loser is deleted. */
  function Remaining(rows: seq<Row>, groups: seq<Group>): (r: seq<Row>)
    ensures forall x :: x in r <==> x in rows && !exists i :: 0 <= i < |groups| && x in groups[i].losers
  {
    if rows == [] then []
    else
      var last := rows[|rows| - 1];
      Remaining(rows[..|rows| - 1], groups) +
      if exists i :: 0 <= i < |groups| && last in groups[i].losers then [] else [last]
  }

  lemma {:induction false} RemainingDistinct(rows: seq<Row>, groups: seq<Group>)
    requires DistinctIDs(rows)
    ensures DistinctIDs(Remaining(rows, groups))
  {
    if rows != [] {
      var n := |rows| - 1;
      RemainingDistinct(rows[..n], groups);
      var front := Remaining(rows[..n], groups);
      forall i | 0 <= i < |front|
        ensures front[i].id != rows[n].id
      {
        assert front[i] in rows[..n];
      }
    }
  }

  lemma NoElements(rows: seq<Row>)
    ensures (forall y :: y !in rows) ==> rows == []
  {
    assert rows != [] ==> rows[0] in rows;
  }

  lemma OnlyElement(rows: seq<Row>, x: Row)
    requires DistinctIDs(rows) && forall y :: y in rows <==> y == x
    ensures rows == [x]
  {
    assert x in rows;
    forall i | 0 <= i < |rows|
      ensures rows[i] == x
    {
      assert rows[i] in rows;
    }
    assert |rows| > 1 ==> rows[0].id != rows[1].id;
  }

  /** Who loses: exactly the rows of duplicate keys that are not the winner of their key. */
  lemma LosersOfKey(c: Setting, rows: seq<Row>, groups: seq<Group>, row: Row, key: Key)
    requires DistinctIDs(rows) && AreDuplicateGroups(c, rows, groups) && row in RowsOf(c, rows, key)
    ensures (exists i :: 0 <= i < |groups| && row in groups[i].losers) <==>
      |RowsOf(c, rows, key)| >= 2 && row != GroupFor(c, rows, key).winner
  {
    hide RowsOf, GroupFor, KeyLess;
    forall i | 0 <= i < |groups| && row in groups[i].losers
      ensures GroupKey(groups[i]) == key
    {
      GroupOfKey(c, rows, GroupKey(groups[i]));
      MembersOfGroup(c, rows, groups[i], row);
    }
    if |RowsOf(c, rows, key)| >= 2 {
      var g := GroupFor(c, rows, key);
      GroupOfKey(c, rows, key);
      MembersOfGroup(c, rows, g, row);
      BetterIrreflexive(c, g.winner);
      assert g in groups;
    }
  }

  lemma BetterIrreflexive(c: Setting, row: Row)
    ensures !Better(c, row, row)
  {
  }

  /** Deleting all losers leaves one row of each duplicate key, the winner, and every other row as it was. */
  lemma OneRowPerKey(c: Setting, rows: seq<Row>, groups: seq<Group>, key: Key)
    requires DistinctIDs(rows) && AreDuplicateGroups(c, rows, groups)
    ensures RowsOf(c, Remaining(rows, groups), key) ==
      if |RowsOf(c, rows, key)| >= 2 then [GroupFor(c, rows, key).winner] else RowsOf(c, rows, key)
  {
    hide RowsOf, Remaining, GroupFor, AreDuplicateGroups;
    var before, left := RowsOf(c, rows, key), RowsOf(c, Remaining(rows, groups), key);
    RemainingDistinct(rows, groups);
    RowsOfDistinct(c, Remaining(rows, groups), key);
    forall x | x in before
      ensures x in left <==> !(|before| >= 2 && x != GroupFor(c, rows, key).winner)
    {
      LosersOfKey(c, rows, groups, x, key);
    }
    if |before| >= 2 {
      var g := GroupFor(c, rows, key);
      GroupOfKey(c, rows, key);
      MembersOfGroup(c, rows, g, g.winner);
      OnlyElement(left, g.winner);
    } else if |before| == 1 {
      OnlyElement(left, before[0]);
    } else {
      NoElements(left);
    }
  }

  /** Rows that cannot be grouped are never deleted. */
  lemma UngroupedKept(c: Setting, rows: seq<Row>, groups: seq<Group>, row: Row)
    requires DistinctIDs(rows) && AreDuplicateGroups(c, rows, groups) && row in rows && KeyOf(c, row) == None
    ensures row in Remaining(rows, groups)
  {
    forall i | 0 <= i < |groups|
      ensures row !in groups[i].losers
    {
      GroupOfKey(c, rows, GroupKey(groups[i]));
      MembersOfGroup(c, rows, groups[i], row);
    }
  }

  lemma GroupForReordered(c: Setting, a: seq<Row>, b: seq<Row>, key: Key)
    requires DistinctIDs(a) && DistinctIDs(b) && forall x :: x in a <==> x in b
    ensures |RowsOf(c, a, key)| == |RowsOf(c, b, key)|
    ensures |RowsOf(c, a, key)| >= 2 ==> GroupFor(c, a, key) == GroupFor(c, b, key)
  {
    hide RowsOf, StableSort, Better;
    var sa, sb := StableSort(BetterIn(c), RowsOf(c, a, key)), StableSort(BetterIn(c), RowsOf(c, b, key));
    BucketSorted(c, a, key);
    BucketSorted(c, b, key);
    SortedUnique(BetterIn(c), sa, sb);
  }

  lemma BucketSorted(c: Setting, rows: seq<Row>, key: Key)
    requires DistinctIDs(rows)
    ensures var sorted := StableSort(BetterIn(c), RowsOf(c, rows, key));
      && |sorted| == |RowsOf(c, rows, key)| && Sorted(BetterIn(c), sorted) && StrictOrderOn(BetterIn(c), sorted)
      && forall x :: x in sorted <==> x in RowsOf(c, rows, key)
  {
    hide RowsOf, StableSort, Better;
    var bucket := RowsOf(c, rows, key);
    RowsOfDistinct(c, rows, key);
    BetterIsStrictOrder(c, bucket);
    SortSorts(BetterIn(c), bucket);
    SortKeepsElements(BetterIn(c), bucket);
    var sorted := StableSort(BetterIn(c), bucket);
    assert forall x :: x in sorted <==> x in multiset(sorted);
  }

  lemma GroupsAreOrdered(groups: seq<Group>)
    requires Sorted(GroupLess(), groups)
    ensures StrictOrderOn(GroupLess(), groups)
  {
    hide KeyLess;
    forall i, j | 0 <= i < j < |groups|
      ensures GroupKey(groups[i]) != GroupKey(groups[j])
    {
      assert GroupLess()(groups[i], groups[j]);
      KeyLessIrreflexive(GroupKey(groups[i]));
    }
    GroupLessIsStrictOrder(groups);
  }

  /** The result does not depend on the order of the rows, nor on anything else: there is only one. */
  lemma OrderDoesNotMatter(c: Setting, a: seq<Row>, b: seq<Row>, ga: seq<Group>, gb: seq<Group>)
    requires DistinctIDs(a) && DistinctIDs(b) && forall x :: x in a <==> x in b
    requires AreDuplicateGroups(c, a, ga) && AreDuplicateGroups(c, b, gb)
    ensures ga == gb
  {
    hide RowsOf, GroupFor;
    forall g
      ensures g in ga <==> g in gb
    {
      GroupForReordered(c, a, b, GroupKey(g));
      GroupForKey(c, a, GroupKey(g));
    }
    GroupsAreOrdered(ga);
    SortedUnique(GroupLess(), ga, gb);
  }

  lemma GroupForKey(c: Setting, rows: seq<Row>, key: Key)
    ensures |RowsOf(c, rows, key)| >= 2 ==> GroupKey(GroupFor(c, rows, key)) == key
  {
  }

  // ---------------------------------------------------------------- the algorithm

  /** What the buckets hold after the first rows. */
  ghost predicate Bucketed(c: Setting, rows: seq<Row>, buckets: map<Key, seq<Row>>) {
    forall key :: (key in buckets <==> RowsOf(c, rows, key) != [])
      && (key in buckets ==> buckets[key] == RowsOf(c, rows, key))
  }

  method FillBuckets(c: Setting, rows: seq<Row>) returns (buckets: map<Key, seq<Row>>)
    ensures Bucketed(c, rows, buckets)
  {
    buckets := map[];
    var i := 0;
    assert rows[..0] == [];
    while i < |rows|
      invariant 0 <= i <= |rows| && Bucketed(c, rows[..i], buckets)
    {
      assert rows[..i + 1][..i] == rows[..i];
      var email := c.normal(rows[i].email);
      if email != "" {
        var platform := c.normal(rows[i].platform);
        if platform == "" {
          platform := "openai";
        }
        var key := Key(email, platform);
        buckets := buckets[key := (if key in buckets then buckets[key] else []) + [rows[i]]];
      }
      i := i + 1;
    }
    assert rows[..|rows|] == rows;
  }

  /** The groups for the keys already looked at, in the order in which they came. */
  ghost predicate Collected(c: Setting, rows: seq<Row>, seen: set<Key>, groups: seq<Group>) {
    && (forall i | 0 <= i < |groups| :: GroupKey(groups[i]) in seen &&
          |RowsOf(c, rows, GroupKey(groups[i]))| >= 2 && groups[i] == GroupFor(c, rows, GroupKey(groups[i])))
    && (forall i, j | 0 <= i < j < |groups| :: GroupKey(groups[i]) != GroupKey(groups[j]))
    && (forall key | key in seen && |RowsOf(c, rows, key)| >= 2 :: GroupFor(c, rows, key) in groups)
  }

  method ComputeDuplicateGroups(c: Setting, rows: seq<Row>) returns (groups: seq<Group>)
    ensures AreDuplicateGroups(c, rows, groups)
  {
    hide RowsOf, StableSort, Better, KeyLess;
    var buckets := FillBuckets(c, rows);
    groups := [];
    var rest := buckets.Keys;
    while rest != {}
      invariant rest <= buckets.Keys && Collected(c, rows, buckets.Keys - rest, groups)
      decreases |rest|
    {
      var key :| key in rest;
      rest := rest - {key};
      var bucket := buckets[key];
      if |bucket| >= 2 {
        var sorted := StableSort(BetterIn(c), bucket);
        SortKeepsElements(BetterIn(c), bucket);
        groups := groups + [Group(key.email, key.platform, sorted[0], sorted[1..], |sorted|)];
      }
    }
    SortedGroups(c, rows, buckets, groups);
    groups := StableSort(GroupLess(), groups);
  }

  lemma SortedGroups(c: Setting, rows: seq<Row>, buckets: map<Key, seq<Row>>, groups: seq<Group>)
    requires Bucketed(c, rows, buckets) && Collected(c, rows, buckets.Keys, groups)
    ensures AreDuplicateGroups(c, rows, StableSort(GroupLess(), groups))
  {
    hide RowsOf, GroupFor, StableSort, KeyLess;
    GroupLessIsStrictOrder(groups);
    SortSorts(GroupLess(), groups);
    SortKeepsElements(GroupLess(), groups);
    var sorted := StableSort(GroupLess(), groups);
    forall key | |RowsOf(c, rows, key)| >= 2
      ensures GroupFor(c, rows, key) in sorted
    {
      assert key in buckets;
      var i :| 0 <= i < |groups| && groups[i] == GroupFor(c, rows, key);
    }
  }
}
