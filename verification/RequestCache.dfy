/** The cache of parsed requests: a recency list and a map over the same entries, bounded in size. */
module RequestCache {
  import opened Sorting
  import opened Wrappers

  const CAPACITY := 256

  // ---------------------------------------------------------------- recency

  function Without<T(==)>(s: seq<T>, x: T): (r: seq<T>)
    ensures x !in r && |r| <= |s|
    ensures forall y | y in r :: y in s
    ensures forall y | y in s && y != x :: y in r
  {
    if s == [] then [] else if s[0] == x then Without(s[1..], x) else [s[0]] + Without(s[1..], x)
  }

  /** The distinct keys of a history, the most recently used first. */
  function Recent<K(==)>(used: seq<K>): seq<K> {
    if used == [] then []
    else [used[|used| - 1]] + Without(Recent(used[..|used| - 1]), used[|used| - 1])
  }

  function Take<T>(s: seq<T>, n: nat): seq<T> {
    if |s| <= n then s else s[..n]
  }

  /** Where `k` was used last, counted from the start of the history. */
  ghost function LastUse<K>(used: seq<K>, k: K): int {
    if used == [] then -1
    else if used[|used| - 1] == k then |used| - 1
    else LastUse(used[..|used| - 1], k)
  }

  lemma LastUseBounds<K>(used: seq<K>, k: K)
    ensures LastUse(used, k) < |used| && (LastUse(used, k) >= 0 <==> k in used)
  {
    if used != [] {
      LastUseBounds(used[..|used| - 1], k);
      assert used == used[..|used| - 1] + [used[|used| - 1]];
    }
  }

  lemma {:induction false} WithoutKeepsOrder<T>(s: seq<T>, x: T, i: nat, j: nat) returns (p: nat, q: nat)
    requires i < j < |Without(s, x)|
    ensures p < q < |s| && s[p] == Without(s, x)[i] && s[q] == Without(s, x)[j]
  {
    if s[0] == x {
      p, q := WithoutKeepsOrder(s[1..], x, i, j);
      p, q := p + 1, q + 1;
    } else if i > 0 {
      p, q := WithoutKeepsOrder(s[1..], x, i - 1, j - 1);
      p, q := p + 1, q + 1;
    } else {
      p := 0;
      var y := Without(s[1..], x)[j - 1];
      assert y in s[1..];
      q :| 1 <= q < |s| && s[q] == y;
    }
  }

  /** `Recent` lists exactly the keys that were used, in the order of their last use, latest first. */
  lemma {:induction false} RecentIsByLastUse<K>(used: seq<K>)
    ensures forall k :: k in Recent(used) <==> k in used
    ensures forall i, j | 0 <= i < j < |Recent(used)| ::
      LastUse(used, Recent(used)[i]) > LastUse(used, Recent(used)[j])
  {
    if used != [] {
      var n := |used| - 1;
      var before, x := used[..n], used[n];
      RecentIsByLastUse(before);
      assert used == before + [x];
      forall i, j | 0 <= i < j < |Recent(used)|
        ensures LastUse(used, Recent(used)[i]) > LastUse(used, Recent(used)[j])
      {
        OrderedAfterUse(before, x, Recent(before), i, j);
      }
    }
  }

  lemma OrderedAfterUse<K>(before: seq<K>, x: K, r: seq<K>, i: nat, j: nat)
    requires forall p, q | 0 <= p < q < |r| :: LastUse(before, r[p]) > LastUse(before, r[q])
    requires i < j <= |Without(r, x)|
    ensures var s := [x] + Without(r, x); LastUse(before + [x], s[i]) > LastUse(before + [x], s[j])
  {
    hide Without;
    var rest := Without(r, x);
    assert rest[j - 1] != x;
    LastUseOfOther(before, x, rest[j - 1]);
    LastUseBounds(before, rest[j - 1]);
    if i > 0 {
      assert rest[i - 1] != x;
      LastUseOfOther(before, x, rest[i - 1]);
      var p, q := WithoutKeepsOrder(r, x, i - 1, j - 1);
    }
  }

  lemma LastUseOfOther<K>(before: seq<K>, x: K, k: K)
    ensures LastUse(before + [x], k) == if k == x then |before| else LastUse(before, k)
  {
    assert (before + [x])[..|before|] == before;
  }

  lemma RecentDistinct<K>(used: seq<K>)
    ensures Distinct(Recent(used))
  {
    RecentIsByLastUse(used);
  }

  lemma {:induction false} WithoutAbsent<T>(s: seq<T>, x: T)
    requires x !in s
    ensures Without(s, x) == s
  {
    if s != [] {
      WithoutAbsent(s[1..], x);
    }
  }

  lemma {:induction false} WithoutConcat<T>(a: seq<T>, b: seq<T>, x: T)
    ensures Without(a + b, x) == Without(a, x) + Without(b, x)
  {
    if a == [] {
      assert a + b == b;
    } else {
      assert (a + b)[1..] == a[1..] + b;
      WithoutConcat(a[1..], b, x);
    }
  }

  lemma WithoutAt<T>(s: seq<T>, i: nat)
    requires i < |s| && Distinct(s)
    ensures Without(s, s[i]) == s[..i] + s[i + 1..]
  {
    hide Without;
    var x, before, after := s[i], s[..i], s[i + 1..];
    assert s == before + ([x] + after);
    assert x !in before && x !in after;
    hide Distinct;
    WithoutConcat(before, [x] + after, x);
    WithoutFirst(after, x);
    WithoutAbsent(before, x);
    WithoutAbsent(after, x);
  }

  lemma WithoutFirst<T>(s: seq<T>, x: T)
    ensures Without([x] + s, x) == Without(s, x)
  {
    assert ([x] + s)[1..] == s;
  }

  /** A use of a key that is among the first `n` moves it to the front of the first `n`. */
  lemma HitMovesToFront<K>(used: seq<K>, n: nat, i: nat)
    requires i < |Take(Recent(used), n)|
    ensures var t := Take(Recent(used), n); Take(Recent(used + [t[i]]), n) == [t[i]] + t[..i] + t[i + 1..]
  {
    hide Recent, Without;
    var r := Recent(used);
    UsedAgain(used, i);
    var r' := [r[i]] + (r[..i] + r[i + 1..]);
    if |r| > n {
      assert r'[..n] == [r[i]] + r[..n][..i] + r[..n][i + 1..];
    } else {
      assert r' == [r[i]] + r[..i] + r[i + 1..];
    }
  }

  lemma UsedAgain<K>(used: seq<K>, i: nat)
    requires i < |Recent(used)|
    ensures var r := Recent(used); Recent(used + [r[i]]) == [r[i]] + (r[..i] + r[i + 1..])
  {
    var r := Recent(used);
    RecentDistinct(used);
    WithoutAt(r, i);
    assert (used + [r[i]])[..|used|] == used;
  }

  lemma UsedFirst<K>(used: seq<K>, k: K)
    requires k !in Recent(used)
    ensures Recent(used + [k]) == [k] + Recent(used)
  {
    WithoutAbsent(Recent(used), k);
    assert (used + [k])[..|used|] == used;
  }

  /** A use of a key that is not among the first `n` puts it in front and drops what falls off the end. */
  lemma MissPushesFront<K>(used: seq<K>, n: nat, k: K)
    requires n > 0 && k !in Take(Recent(used), n)
    ensures Take(Recent(used + [k]), n) == Take([k] + Take(Recent(used), n), n)
  {
    hide Recent, Without;
    var r := Recent(used);
    if k in r {
      var i :| 0 <= i < |r| && r[i] == k;
      assert i >= n && |r| > n by {
        assert forall j | 0 <= j < |Take(r, n)| :: Take(r, n)[j] == r[j];
      }
      UsedAgain(used, i);
      assert ([k] + (r[..i] + r[i + 1..]))[..n] == ([k] + r[..n])[..n];
    } else {
      UsedFirst(used, k);
    }
  }

  /** The keys the cache has to hold after a history of uses, the most recent first. */
  function Kept<K(==)>(used: seq<K>): (kept: seq<K>)
    ensures kept <= Recent(used) && |kept| == if |Recent(used)| < 256 then |Recent(used)| else 256
  {
    Take(Recent(used), CAPACITY)
  }

  lemma KeptAfterHit<K>(used: seq<K>, i: nat)
    requires i < |Kept(used)|
    ensures Kept(used + [Kept(used)[i]]) == Fronted(Kept(used), i)
  {
    HitMovesToFront(used, CAPACITY, i);
  }

  lemma PushedDistinct<K>(used: seq<K>, k: K)
    requires k !in Kept(used)
    ensures Distinct([k] + Kept(used))
  {
    RecentDistinct(used);
  }

  lemma KeptAfterMiss<K>(used: seq<K>, k: K)
    requires k !in Kept(used)
    ensures Kept(used + [k]) == Take([k] + Kept(used), CAPACITY)
  {
    MissPushesFront(used, CAPACITY, k);
  }

  // ---------------------------------------------------------------- the cache

  class Entry<K, R> {
    const key: K
    var req: R

    constructor (key: K, req: R)
      ensures this.key == key && this.req == req
    {
      this.key, this.req := key, req;
    }
  }

  function KeysOf<K, R>(order: seq<Entry<K, R>>): (ks: seq<K>)
    ensures |ks| == |order| && forall i | 0 <= i < |order| :: ks[i] == order[i].key
  {
    seq(|order|, i requires 0 <= i < |order| => order[i].key)
  }

  function Elements<T(==)>(s: seq<T>): set<T> {
    set x | x in s
  }

  /** The list and the map hold the same entries, each under its own key. */
  ghost predicate Linked<K, R>(order: seq<Entry<K, R>>, items: map<K, Entry<K, R>>) {
    items.Values == Elements(order) && forall k | k in items :: items[k].key == k
  }

  function Fronted<T>(s: seq<T>, i: nat): seq<T>
    requires i < |s|
  {
    [s[i]] + s[..i] + s[i + 1..]
  }

  lemma FrontedMembers<T>(s: seq<T>, i: nat)
    requires i < |s|
    ensures multiset(Fronted(s, i)) == multiset(s) && Elements(Fronted(s, i)) == Elements(s)
  {
    assert s == s[..i] + [s[i]] + s[i + 1..];
    assert Elements(s) == Elements(s[..i]) + {s[i]} + Elements(s[i + 1..]);
  }

  lemma FrontedKeys<K, R>(order: seq<Entry<K, R>>, i: nat)
    requires i < |order|
    ensures KeysOf(Fronted(order, i)) == Fronted(KeysOf(order), i)
  {
  }

  /** Every entry of the list is found in the map, under its key. */
  lemma LinkedAt<K, R>(order: seq<Entry<K, R>>, items: map<K, Entry<K, R>>, i: nat)
    requires Linked(order, items) && i < |order|
    ensures order[i].key in items && items[order[i].key] == order[i]
  {
    assert order[i] in items.Values;
  }

  lemma LinkedKeys<K, R>(order: seq<Entry<K, R>>, items: map<K, Entry<K, R>>)
    requires Linked(order, items)
    ensures forall k :: k in KeysOf(order) <==> k in items
  {
    forall k | k in items
      ensures k in KeysOf(order)
    {
      assert items[k] in Elements(order);
      var i :| 0 <= i < |order| && order[i] == items[k];
      assert KeysOf(order)[i] == k;
    }
    forall i | 0 <= i < |order|
      ensures KeysOf(order)[i] in items
    {
      LinkedAt(order, items, i);
    }
  }

  lemma PushedLinked<K, R>(order: seq<Entry<K, R>>, items: map<K, Entry<K, R>>, e: Entry<K, R>)
    requires Linked(order, items) && e.key !in items
    ensures Linked([e] + order, items[e.key := e]) && KeysOf([e] + order) == [e.key] + KeysOf(order)
  {
    var items' := items[e.key := e];
    assert Elements([e] + order) == {e} + Elements(order);
    forall x | x in {e} + items.Values
      ensures x in items'.Values
    {
      if x in items.Values {
        var k :| k in items && items[k] == x;
        assert items'[k] == x;
      } else {
        assert items'[e.key] == x;
      }
    }
  }

  lemma EvictedLinked<K, R>(order: seq<Entry<K, R>>, items: map<K, Entry<K, R>>)
    requires Linked(order, items) && |order| > 0 && Distinct(KeysOf(order))
    ensures var n := |order| - 1; Linked(order[..n], items - {order[n].key}) && KeysOf(order[..n]) == KeysOf(order)[..n]
    ensures |order| > 1 ==> order[0].key != order[|order| - 1].key
  {
    var n := |order| - 1;
    assert |order| > 1 ==> KeysOf(order)[0] != KeysOf(order)[n];
    var items' := items - {order[n].key};
    LinkedAt(order, items, n);
    forall x | x in items'.Values
      ensures x in Elements(order[..n])
    {
      var k :| k in items' && items'[k] == x;
      assert items[k] in Elements(order);
      var i :| 0 <= i < |order| && order[i] == x;
      assert i != n;
    }
    forall i | 0 <= i < n
      ensures order[i] in items'.Values
    {
      LinkedAt(order, items, i);
      assert KeysOf(order)[i] != KeysOf(order)[n];
      assert items'[order[i].key] == order[i];
    }
  }

  ghost predicate Injective<A(!new), B>(f: A -> B) {
    forall a, b | f(a) == f(b) :: a == b
  }

  class RequestCache<Byte(==,!new), K(==,!new), R> {
    const hash: seq<Byte> -> K
    const parse: seq<Byte> -> R
    var order: seq<Entry<K, R>>
    var items: map<K, Entry<K, R>>
    /** Every key looked up with success or stored, in that order. */
    ghost var used: seq<K>

    /** What is cached under a key is what parsing the bytes behind that key gives. */
    ghost predicate Parsed(e: Entry<K, R>)
      reads e
    {
      exists raw :: hash(raw) == e.key && parse(raw) == e.req
    }

    ghost predicate AllParsed()
      reads this, items.Values
    {
      forall k | k in items :: Parsed(items[k])
    }

    ghost predicate Valid()
      reads this, items.Values
    {
      KeysOf(order) == Kept(used) && Linked(order, items) && AllParsed()
    }

    constructor (hash: seq<Byte> -> K, parse: seq<Byte> -> R)
      ensures Valid() && this.hash == hash && this.parse == parse && used == []
    {
      this.hash, this.parse := hash, parse;
      order, items, used := [], map[], [];
    }

    /** The list moves an element it holds to its front. */
    method MoveToFront(elem: Entry<K, R>)
      requires Valid() && elem in order
      modifies `order, `used
      ensures Valid() && used == old(used) + [elem.key] && multiset(order) == old(multiset(order))
    {
      hide Kept, KeysOf, Fronted, Elements;
      var i :| 0 <= i < |order| && order[i] == elem;
      KeptAfterHit(used, i);
      FrontedMembers(order, i);
      FrontedKeys(order, i);
      order := Fronted(order, i);
      used := used + [elem.key];
    }

    method Get(key: K) returns (req: Option<R>)
      requires Valid()
      modifies `order, `used
      ensures Valid() && (req.Some? <==> key in items)
      ensures req.Some? ==> used == old(used) + [key] && items[key].req == req.value
      ensures req.None? ==> used == old(used) && order == old(order)
    {
      if key !in items {
        return None;
      }
      var elem := items[key];
      assert elem in Elements(order);
      MoveToFront(elem);
      return Some(elem.req);
    }

    method Put(key: K, req: R)
      requires Valid() && exists raw :: hash(raw) == key && parse(raw) == req
      modifies `order, `items, `used, items.Values
      ensures Valid() && used == old(used) + [key]
      ensures fresh(items.Values - old(items.Values))
      ensures key in items && items[key].req == req
    {
      hide Kept, KeysOf, Distinct;
      if key in items {
        var elem := items[key];
        assert elem in Elements(order);
        MoveToFront(elem);
        elem.req := req;
        forall k | k in items
          ensures Parsed(items[k])
        {
          assert old(Parsed(items[k]));
        }
        assert AllParsed();
        return;
      }
      PushFront(key, req);
    }

    /** A new entry in front of the list and in the map. */
    method Prepend(key: K, req: R)
      requires Valid() && key !in items && exists raw :: hash(raw) == key && parse(raw) == req
      modifies `order, `items
      ensures key in items && fresh(items[key]) && items[key].req == req
      ensures items.Values <= old(items.Values) + {items[key]}
      ensures Linked(order, items) && KeysOf(order) == [key] + old(KeysOf(order)) && AllParsed()
    {
      hide Kept, KeysOf, Linked, Elements;
      var elem := new Entry(key, req);
      PushedLinked(order, items, elem);
      order := [elem] + order;
      items := items[key := elem];
      forall k | k in items
        ensures Parsed(items[k])
      {
        assert k != key ==> old(Parsed(items[k]));
      }
    }

    /** The part of `Put` for a key that is not cached: a new entry in front, the least recently used one evicted. */
    method PushFront(key: K, req: R)
      requires Valid() && key !in items && exists raw :: hash(raw) == key && parse(raw) == req
      modifies `order, `items, `used
      ensures Valid() && used == old(used) + [key]
      ensures fresh(items.Values - old(items.Values))
      ensures key in items && items[key].req == req
    {
      hide Kept, KeysOf, Distinct, Linked, Elements, Recent, Parsed;
      LinkedKeys(order, items);
      KeptAfterMiss(used, key);
      PushedDistinct(used, key);
      Prepend(key, req);
      used := used + [key];
      if |order| <= CAPACITY {
        return;
      }
      EvictedLinked(order, items);
      assert KeysOf(order)[..CAPACITY] == Kept(used);
      var tail := order[|order| - 1];
      order := order[..|order| - 1];
      items := items - {tail.key};
    }

    /** The request for a body, parsed at most once while its key is kept: the cache cannot be told from parsing. */
    method CachedOrParse(raw: seq<Byte>, empty: R) returns (req: R)
      requires Valid() && Injective(hash)
      modifies `order, `items, `used, items.Values
      ensures Valid() && fresh(items.Values - old(items.Values))
      ensures req == if raw == [] then empty else parse(raw)
      ensures used == if raw == [] then old(used) else old(used) + [hash(raw)]
    {
      if |raw| == 0 {
        return empty;
      }
      var key := hash(raw);
      var found := Get(key);
      if found.Some? {
        assert Parsed(items[key]);
        return found.value;
      }
      req := parse(raw);
      Put(key, req);
    }
  }
}
