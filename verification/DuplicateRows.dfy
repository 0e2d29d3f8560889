/** The duplicate groups told in the fields of the rows: who is grouped with whom, who comes first and why, and in
    which order the groups are listed. */
module DuplicateRows {
  import opened Dedupe
  import opened Sorting
  import opened Wrappers

  /** The row stands under this email and platform; no platform counts as openai. */
  predicate StandsUnder(c: Setting, row: Row, email: string, platform: string) {
    && email != "" && c.normal(row.email) == email
    && (if c.normal(row.platform) == "" then platform == "openai" else c.normal(row.platform) == platform)
  }

  lemma KeyInFields(c: Setting, row: Row, key: Key)
    ensures KeyOf(c, row) == Some(key) <==> StandsUnder(c, row, key.email, key.platform)
  {
  }

  /** A group holds exactly the rows that stand under its email and platform. */
  lemma GroupMembers(c: Setting, rows: seq<Row>, groups: seq<Group>, i: nat, row: Row)
    requires DistinctIDs(rows) && AreDuplicateGroups(c, rows, groups) && i < |groups|
    ensures row in [groups[i].winner] + groups[i].losers <==>
      row in rows && StandsUnder(c, row, groups[i].email, groups[i].platform)
    ensures groups[i].total == |groups[i].losers| + 1 >= 2
  {
    var key := GroupKey(groups[i]);
    hide RowsOf, GroupFor, KeyOf, StandsUnder;
    GroupOfKey(c, rows, key);
    assert |multiset([groups[i].winner] + groups[i].losers)| == |multiset(RowsOf(c, rows, key))|;
    MembersOfGroup(c, rows, groups[i], row);
    KeyInFields(c, row, key);
  }

  lemma InRowsOf(c: Setting, rows: seq<Row>, key: Key, i: nat, j: nat)
    requires i < j < |rows| && KeyOf(c, rows[i]) == KeyOf(c, rows[j]) == Some(key)
    ensures |RowsOf(c, rows, key)| >= 2
    decreases |rows|
  {
    var n := |rows| - 1;
    var init := rows[..n];
    assert RowsOf(c, rows, key) ==
      RowsOf(c, init, key) + if KeyOf(c, rows[n]) == Some(key) then [rows[n]] else [];
    hide RowsOf, KeyOf;
    if j < n {
      InRowsOf(c, init, key, i, j);
    } else {
      assert init[i] == rows[i];
      assert rows[i] in RowsOf(c, init, key);
    }
  }

  /** Two rows that stand under the same email and platform are in a group. */
  lemma DuplicatesAreGrouped(c: Setting, rows: seq<Row>, groups: seq<Group>, i: nat, j: nat, email: string,
                             platform: string)
    requires AreDuplicateGroups(c, rows, groups) && i < j < |rows|
    requires StandsUnder(c, rows[i], email, platform) && StandsUnder(c, rows[j], email, platform)
    ensures exists k :: 0 <= k < |groups| && groups[k].email == email && groups[k].platform == platform
  {
    var key := Key(email, platform);
    KeyInFields(c, rows[i], key);
    KeyInFields(c, rows[j], key);
    InRowsOf(c, rows, key, i, j);
    GroupForKey(c, rows, key);
    hide RowsOf, GroupFor;
    var k :| 0 <= k < |groups| && groups[k] == GroupFor(c, rows, key);
  }

  // ---------------------------------------------------------------- who comes first

  /** Why a row is worth more than another: the first of these that only one of them has, or else the older row. */
  predicate WorthMore(c: Setting, a: Row, b: Row) {
    var paidA, paidB := c.normal(a.plan) !in {"", "free"}, c.normal(b.plan) !in {"", "free"};
    var week := 7 * 24 * 3600 * 1000;
    var newA := c.lastUsed(a.id).Some? && c.now < c.lastUsed(a.id).value + week;
    var newB := c.lastUsed(b.id).Some? && c.now < c.lastUsed(b.id).value + week;
    if a.hasRefreshToken != b.hasRefreshToken then a.hasRefreshToken
    else if paidA != paidB then paidA
    else if a.locked != b.locked then a.locked
    else if (a.status == "active") != (b.status == "active") then a.status == "active"
    else if newA != newB then newA
    else a.id < b.id
  }

  lemma BetterInFields(c: Setting, a: Row, b: Row)
    ensures Better(c, a, b) <==> WorthMore(c, a, b)
  {
    ScoreIsLexicographic(c, a, b);
    hide Score;
  }

  /** In a group everyone is worth more than those after it, the winner first. */
  lemma GroupOrder(c: Setting, rows: seq<Row>, groups: seq<Group>, i: nat)
    requires DistinctIDs(rows) && AreDuplicateGroups(c, rows, groups) && i < |groups|
    ensures forall k | 0 <= k < |groups[i].losers| :: WorthMore(c, groups[i].winner, groups[i].losers[k])
    ensures forall k, l | 0 <= k < l < |groups[i].losers| ::
      WorthMore(c, groups[i].losers[k], groups[i].losers[l])
  {
    hide RowsOf, GroupFor, Better, WorthMore;
    var g := groups[i];
    GroupOfKey(c, rows, GroupKey(g));
    forall k | 0 <= k < |g.losers|
      ensures WorthMore(c, g.winner, g.losers[k])
    {
      BetterInFields(c, g.winner, g.losers[k]);
    }
    forall k, l | 0 <= k < l < |g.losers|
      ensures WorthMore(c, g.losers[k], g.losers[l])
    {
      assert BetterIn(c)(g.losers[k], g.losers[l]);
      BetterInFields(c, g.losers[k], g.losers[l]);
    }
  }

  // ---------------------------------------------------------------- the order of the groups

  /** Byte order, by the first byte in which two strings differ; a string comes before its continuations. */
  ghost predicate EarlierString(a: string, b: string) {
    exists n | 0 <= n <= |a| && n < |b| :: a[..n] == b[..n] && (n == |a| || a[n] < b[n])
  }

  lemma EarlierAfterSame(a: string, b: string)
    requires a != "" && b != "" && a[0] == b[0]
    ensures EarlierString(a, b) <==> EarlierString(a[1..], b[1..])
  {
    if n :| 0 <= n <= |a| && n < |b| && a[..n] == b[..n] && (n == |a| || a[n] < b[n]) {
      assert n > 0 && a[..n][1..] == a[1..][..n - 1] && b[..n][1..] == b[1..][..n - 1];
      assert a[1..][..n - 1] == b[1..][..n - 1];
    }
    var c, d := a[1..], b[1..];
    if m :| 0 <= m <= |c| && m < |d| && c[..m] == d[..m] && (m == |c| || c[m] < d[m]) {
      assert a[..m + 1] == [a[0]] + c[..m] && b[..m + 1] == [b[0]] + d[..m];
    }
  }

  lemma EarlierStart(a: string, b: string)
    requires EarlierString(a, b)
    ensures b != "" && (a == "" || a[0] <= b[0])
  {
    var n :| 0 <= n <= |a| && n < |b| && a[..n] == b[..n] && (n == |a| || a[n] < b[n]);
    if n > 0 {
      assert a[..n][0] == b[..n][0];
    }
  }

  lemma {:induction false} StringLessExactly(a: string, b: string)
    ensures StringLess(a, b) <==> EarlierString(a, b)
  {
    if a != "" && b != "" && a[0] == b[0] {
      StringLessExactly(a[1..], b[1..]);
      EarlierAfterSame(a, b);
    } else if b != "" && (a == "" || a[0] < b[0]) {
      assert a[..0] == b[..0];
    } else if EarlierString(a, b) {
      EarlierStart(a, b);
    }
  }

  /** Groups are listed by email, and by platform under the same email. */
  lemma GroupsInOrder(c: Setting, rows: seq<Row>, groups: seq<Group>, i: nat, j: nat)
    requires AreDuplicateGroups(c, rows, groups) && i < j < |groups|
    ensures EarlierString(groups[i].email, groups[j].email)
      || (groups[i].email == groups[j].email && EarlierString(groups[i].platform, groups[j].platform))
  {
    hide StringLess, EarlierString, GroupFor, RowsOf;
    assert GroupLess()(groups[i], groups[j]);
    StringLessExactly(groups[i].email, groups[j].email);
    StringLessExactly(groups[i].platform, groups[j].platform);
  }
}
