/** The refresh scheduler's priority queue: a binary heap of task objects that know their own position,
    with container/heap's up and down written out, and the loop that moves due tasks to the channel. */
module RefreshQueue {

  // ---------------------------------------------------------------- heaps of keys

  datatype Key = Key(priority: int, at: int)

  /** More urgent: higher priority first, then the earlier time. */
  predicate Sooner(a: Key, b: Key) {
    if a.priority != b.priority then a.priority > b.priority else a.at < b.at
  }

  function Parent(i: int): int
    requires i > 0
  {
    (i - 1) / 2
  }

  /** Entry `c` is not more urgent than its parent. */
  predicate Below(ks: seq<Key>, c: int)
    requires 0 < c < |ks|
  {
    !Sooner(ks[c], ks[Parent(c)])
  }

  ghost predicate HeapOrdered(ks: seq<Key>, n: nat)
    requires n <= |ks|
  {
    forall c | 0 < c < n :: Below(ks, c)
  }

  /** Heap order except between `j` and its parent, whose place `j` could take. */
  ghost predicate Rising(ks: seq<Key>, n: nat, j: nat)
    requires n <= |ks| && j < |ks|
  {
    && (forall c | 0 < c < n && c != j :: Below(ks, c))
    && (j > 0 ==> forall c | 0 < c < n && Parent(c) == j :: !Sooner(ks[c], ks[Parent(j)]))
  }

  /** Heap order except between `i` and its children or its parent; the children fit below that parent. */
  ghost predicate Loose(ks: seq<Key>, n: nat, i: nat)
    requires n <= |ks| && i < |ks|
  {
    && (forall c | 0 < c < n && c != i && Parent(c) != i :: Below(ks, c))
    && (i > 0 ==> forall c | 0 < c < n && Parent(c) == i :: !Sooner(ks[c], ks[Parent(i)]))
  }

  function Swapped<T>(s: seq<T>, i: nat, j: nat): (r: seq<T>)
    requires i < |s| && j < |s|
    ensures multiset(r) == multiset(s) && |r| == |s|
  {
    s[i := s[j]][j := s[i]]
  }

  lemma RiseStep(ks: seq<Key>, n: nat, j: nat)
    requires 0 < j < n <= |ks| && Rising(ks, n, j) && Sooner(ks[j], ks[Parent(j)])
    ensures Rising(Swapped(ks, Parent(j), j), n, Parent(j))
  {
    var i := Parent(j);
    var ks' := Swapped(ks, i, j);
    forall c | 0 < c < n && c != i
      ensures Below(ks', c)
    {
      assert c != j ==> Below(ks, c);
    }
    if i > 0 {
      assert Below(ks, i);
      forall c | 0 < c < n && Parent(c) == i
        ensures !Sooner(ks'[c], ks'[Parent(i)])
      {
        assert c != j ==> Below(ks, c);
      }
    }
  }

  lemma RiseEnd(ks: seq<Key>, n: nat, j: nat)
    requires j < n <= |ks| && Rising(ks, n, j) && (j > 0 ==> !Sooner(ks[j], ks[Parent(j)]))
    ensures HeapOrdered(ks, n)
  {
  }

  /** The child that `down` compares with: the more urgent of the two, the left one when equal. */
  predicate BestChild(ks: seq<Key>, n: nat, i: nat, j: nat)
    requires n <= |ks|
  {
    0 < j < n && Parent(j) == i && forall c | 0 < c < n && Parent(c) == i :: !Sooner(ks[c], ks[j])
  }

  lemma SinkStep(ks: seq<Key>, n: nat, i: nat, j: nat)
    requires i < n <= |ks| && Loose(ks, n, i) && BestChild(ks, n, i, j) && Sooner(ks[j], ks[i])
    ensures Loose(Swapped(ks, i, j), n, j)
    ensures i > 0 ==> Below(Swapped(ks, i, j), i)
    ensures forall c | 0 < c < n && Parent(c) == i :: Below(Swapped(ks, i, j), c)
  {
    var ks' := Swapped(ks, i, j);
    forall c | 0 < c < n && c != i && Parent(c) != i && Parent(c) != j
      ensures Below(ks', c)
    {
      assert Below(ks, c);
    }
    forall c | 0 < c < n && Parent(c) == j
      ensures !Sooner(ks'[c], ks'[Parent(j)])
    {
      assert Below(ks, c);
    }
  }

  /** Where sinking stops after it has moved, order holds at every place but below `i`, and there too. */
  lemma SinkEnd(ks: seq<Key>, n: nat, i: nat)
    requires i < n <= |ks| && Loose(ks, n, i)
    requires forall c | 0 < c < n && Parent(c) == i :: !Sooner(ks[c], ks[i])
    ensures Rising(ks, n, i)
    ensures (i > 0 ==> Below(ks, i)) ==> HeapOrdered(ks, n)
  {
    forall c | 0 < c < n && c != i
      ensures Below(ks, c)
    {
    }
  }

  /** The root of a heap is not less urgent than anything in it. */
  lemma {:induction false} RootIsSoonest(ks: seq<Key>, n: nat, c: nat)
    requires c < n <= |ks| && HeapOrdered(ks, n)
    ensures !Sooner(ks[c], ks[0])
    decreases c
  {
    if c > 0 {
      assert Below(ks, c);
      RootIsSoonest(ks, n, Parent(c));
    }
  }

  /** A heap with a new key at the end, whatever it is, only needs that key to rise. */
  lemma AppendedRises(ks: seq<Key>, k: Key)
    requires HeapOrdered(ks, |ks|)
    ensures Rising(ks + [k], |ks| + 1, |ks|)
  {
    var ks' := ks + [k];
    forall c | 0 < c < |ks'| && c != |ks|
      ensures Below(ks', c)
    {
      assert Below(ks, c);
    }
  }

  /** A heap in which entry `i` was given any new key. */
  ghost predicate Rekeyed(ks: seq<Key>, n: nat, i: nat)
    requires i < n <= |ks|
  {
    exists was: seq<Key> :: n <= |was| == |ks| && HeapOrdered(was, n) && ks == was[i := ks[i]]
  }

  lemma RekeyedIsLoose(ks: seq<Key>, n: nat, i: nat)
    requires i < n <= |ks| && Rekeyed(ks, n, i)
    ensures Loose(ks, n, i)
  {
    var was: seq<Key> :| n <= |was| == |ks| && HeapOrdered(was, n) && ks == was[i := ks[i]];
    forall c | 0 < c < n && c != i && Parent(c) != i
      ensures Below(ks, c)
    {
      assert Below(was, c);
    }
    if i > 0 {
      assert Below(was, i);
      forall c | 0 < c < n && Parent(c) == i
        ensures !Sooner(ks[c], ks[Parent(i)])
      {
        assert Below(was, c);
      }
    }
  }

  /** Taking the last entry into place `i` and forgetting the old one is a rekeying of the shorter heap. */
  lemma ReplacedIsRekeyed(ks: seq<Key>, i: nat, n: nat)
    requires i < n && n + 1 == |ks| && HeapOrdered(ks, n + 1)
    ensures Rekeyed(Swapped(ks, i, n), n, i)
  {
    var ks' := Swapped(ks, i, n)[i := ks[i]];
    forall c | 0 < c < n
      ensures Below(ks', c)
    {
      assert Below(ks, c);
    }
    assert HeapOrdered(ks', n);
    assert Swapped(ks, i, n) == ks'[i := ks[n]];
  }

  lemma HeapPrefix(ks: seq<Key>, n: nat)
    requires n <= |ks| && (HeapOrdered(ks, |ks|) || n == 0)
    ensures HeapOrdered(ks, n)
  {
    forall c | 0 < c < n
      ensures Below(ks, c)
    {
    }
  }

  lemma ShorterHeap(ks: seq<Key>, n: nat)
    requires n <= |ks| && HeapOrdered(ks, n)
    ensures HeapOrdered(ks[..n], n)
  {
    forall c | 0 < c < n
      ensures Below(ks[..n], c)
    {
      assert Below(ks, c);
    }
  }

  // ---------------------------------------------------------------- task objects

  datatype TaskState = Pending | Running | Success | Failed | Retrying

  class RefreshTask {
    const dbID: int
    var scheduledAt: int
    var priority: int
    var state: TaskState
    var attempts: int
    var heapIndex: int

    constructor (dbID: int, scheduledAt: int, priority: int)
      ensures this.dbID == dbID && this.scheduledAt == scheduledAt && this.priority == priority
      ensures state == Pending && attempts == 0 && heapIndex == -1
    {
      this.dbID, this.scheduledAt, this.priority := dbID, scheduledAt, priority;
      state, attempts, heapIndex := Pending, 0, -1;
    }

    function KeyOf(): Key
      reads `priority, `scheduledAt
    {
      Key(priority, scheduledAt)
    }
  }

  function Elems(pq: seq<RefreshTask>): set<RefreshTask> {
    set t | t in pq
  }

  ghost function Keys(pq: seq<RefreshTask>): (ks: seq<Key>)
    reads Elems(pq)`priority, Elems(pq)`scheduledAt
    ensures |ks| == |pq| && forall i | 0 <= i < |pq| :: ks[i] == pq[i].KeyOf()
  {
    if pq == [] then [] else Keys(pq[..|pq| - 1]) + [pq[|pq| - 1].KeyOf()]
  }

  lemma KeysSwapped(pq: seq<RefreshTask>, i: nat, j: nat)
    requires i < |pq| && j < |pq|
    ensures Keys(Swapped(pq, i, j)) == Swapped(Keys(pq), i, j)
  {
    hide Keys;
    assert |Keys(Swapped(pq, i, j))| == |Swapped(Keys(pq), i, j)|;
  }

  lemma KeysAppended(pq: seq<RefreshTask>, task: RefreshTask)
    ensures Keys(pq + [task]) == Keys(pq) + [task.KeyOf()]
  {
    hide Keys;
    assert |Keys(pq + [task])| == |Keys(pq)| + 1;
  }

  /** Every task of the queue knows where it stands. */
  ghost predicate Indexed(pq: seq<RefreshTask>)
    reads Elems(pq)`heapIndex
  {
    forall i | 0 <= i < |pq| :: pq[i].heapIndex == i
  }

  /** The same tasks, each as often, in some order. */
  ghost predicate SameTasks(a: seq<RefreshTask>, b: seq<RefreshTask>) {
    multiset(a) == multiset(b) && |a| == |b| && Elems(a) == Elems(b)
  }

  lemma SwappedSame(pq: seq<RefreshTask>, i: nat, j: nat, n: nat)
    requires i < n <= |pq| && j < n
    ensures SameTasks(Swapped(pq, i, j), pq) && Swapped(pq, i, j)[n..] == pq[n..]
  {
    assert pq[i] in Swapped(pq, i, j) by { assert Swapped(pq, i, j)[j] == pq[i]; }
    assert pq[j] in Swapped(pq, i, j) by { assert Swapped(pq, i, j)[i] == pq[j]; }
    forall t | t in Elems(pq)
      ensures t in Elems(Swapped(pq, i, j))
    {
      var k :| 0 <= k < |pq| && pq[k] == t;
      assert k != i && k != j ==> Swapped(pq, i, j)[k] == t;
    }
  }

  lemma SwappedLast(pq: seq<RefreshTask>, i: nat)
    requires i < |pq|
    ensures Swapped(pq, i, |pq| - 1)[|pq| - 1..] == [pq[i]]
  {
  }

  lemma InElems(pq: seq<RefreshTask>, i: nat)
    requires i < |pq|
    ensures pq[i] in Elems(pq)
  {
  }

  lemma BestOfTwo(ks: seq<Key>, n: nat, i: nat, j: nat)
    requires n <= |ks| && i < n && j < n && (j == 2 * i + 1 || j == 2 * i + 2)
    requires j == 2 * i + 1 && j + 1 < n ==> !Sooner(ks[j + 1], ks[j])
    requires j == 2 * i + 2 ==> Sooner(ks[j], ks[j - 1])
    ensures BestChild(ks, n, i, j) && Parent(j) == i
  {
    forall c | 0 < c < n && Parent(c) == i
      ensures !Sooner(ks[c], ks[j])
    {
      assert c == 2 * i + 1 || c == 2 * i + 2;
    }
  }

  class TaskQueue {
    var pq: seq<RefreshTask>

    ghost predicate Valid()
      reads this, pq
    {
      Indexed(pq) && HeapOrdered(Keys(pq), |pq|)
    }

    constructor ()
      ensures pq == [] && Valid()
    {
      pq := [];
    }

    method Swap(i: nat, j: nat)
      requires i < |pq| && j < |pq| && Indexed(pq)
      modifies `pq, {pq[i], pq[j]}`heapIndex
      ensures pq == Swapped(old(pq), i, j) && Indexed(pq)
    {
      pq := pq[i := pq[j]][j := pq[i]];
      pq[i].heapIndex := i;
      pq[j].heapIndex := j;
    }

    /** container/heap up: lifts entry `j0` to its place among the first `n`. */
    method Up(j0: nat, ghost n: nat)
      requires j0 < n <= |pq| && Indexed(pq) && Rising(Keys(pq), n, j0)
      modifies `pq, Elems(pq)`heapIndex
      ensures Indexed(pq) && SameTasks(pq, old(pq)) && pq[n..] == old(pq)[n..]
      ensures HeapOrdered(Keys(pq), n)
    {
      hide HeapOrdered, Rising, Keys, Elems, Indexed, Swapped;
      var j := j0;
      while j > 0
        invariant 0 <= j < n <= |pq| && Indexed(pq) && SameTasks(pq, old(pq)) && pq[n..] == old(pq)[n..]
        invariant Rising(Keys(pq), n, j)
        decreases j
      {
        var i := Parent(j);
        if !Sooner(pq[j].KeyOf(), pq[i].KeyOf()) {
          break;
        }
        RiseStep(Keys(pq), n, j);
        SwappedSame(pq, i, j, n);
        ghost var was := pq;
        ghost var ks := Keys(pq);
        InElems(pq, i);
        InElems(pq, j);
        Swap(i, j);
        assert Keys(was) == ks;
        KeysSwapped(was, i, j);
        assert Keys(pq) == Swapped(ks, i, j);
        j := i;
      }
      RiseEnd(Keys(pq), n, j);
    }

    /** container/heap down on the first `n` entries; `moved` tells whether `i0` sank at all. */
    method Down(i0: nat, n: nat) returns (moved: bool)
      requires i0 < n <= |pq| && Indexed(pq) && Loose(Keys(pq), n, i0)
      modifies `pq, Elems(pq)`heapIndex
      ensures Indexed(pq) && SameTasks(pq, old(pq)) && pq[n..] == old(pq)[n..]
      ensures moved ==> HeapOrdered(Keys(pq), n)
      ensures !moved ==> pq == old(pq) && Rising(Keys(pq), n, i0)
    {
      hide HeapOrdered, Loose, Rising, Below, BestChild, Keys, Elems, Indexed, Swapped;
      var i := i0;
      while true
        invariant i0 <= i < n <= |pq| && Indexed(pq) && SameTasks(pq, old(pq)) && pq[n..] == old(pq)[n..]
        invariant Loose(Keys(pq), n, i)
        invariant i == i0 ==> pq == old(pq)
        invariant i > i0 ==> Below(Keys(pq), i)
        decreases n - i
      {
        var j := 2 * i + 1;
        if j >= n {
          break;
        }
        if j + 1 < n && Sooner(pq[j + 1].KeyOf(), pq[j].KeyOf()) {
          j := j + 1;
        }
        BestOfTwo(Keys(pq), n, i, j);
        if !Sooner(pq[j].KeyOf(), pq[i].KeyOf()) {
          break;
        }
        SinkStep(Keys(pq), n, i, j);
        SwappedSame(pq, i, j, n);
        ghost var was := pq;
        ghost var ks := Keys(pq);
        InElems(pq, i);
        InElems(pq, j);
        Swap(i, j);
        assert Keys(was) == ks;
        KeysSwapped(was, i, j);
        assert Keys(pq) == Swapped(ks, i, j);
        i := j;
      }
      SinkEnd(Keys(pq), n, i);
      moved := i > i0;
    }

    /** Push of the queue and of container/heap: appends and lifts. */
    method Push(task: RefreshTask)
      requires Valid() && task !in pq
      modifies `pq, task`heapIndex, Elems(pq)`heapIndex
      ensures Valid() && SameTasks(pq, old(pq) + [task])
    {
      hide HeapOrdered, Rising, Keys;
      AppendedRises(Keys(pq), task.KeyOf());
      ghost var was, ks := pq, Keys(pq);
      task.heapIndex := |pq|;
      pq := pq + [task];
      assert Keys(was) == ks;
      KeysAppended(was, task);
      Up(|pq| - 1, |pq|);
    }

    /** Fix of container/heap, after the key of entry `i` was changed in place. */
    method Fix(i: nat)
      requires i < |pq| && Indexed(pq) && Rekeyed(Keys(pq), |pq|, i)
      modifies `pq, Elems(pq)`heapIndex
      ensures Valid() && SameTasks(pq, old(pq))
    {
      hide HeapOrdered, Rising, Loose, Rekeyed, Keys, Elems, Indexed;
      RekeyedIsLoose(Keys(pq), |pq|, i);
      var moved := Down(i, |pq|);
      if !moved {
        Up(i, |pq|);
      }
    }

    /** Pop of the queue: cuts the last entry off and marks it as no longer queued. */
    method CutLast() returns (task: RefreshTask)
      requires |pq| > 0 && Indexed(pq) && HeapOrdered(Keys(pq), |pq| - 1)
      modifies `pq, Elems(pq)`heapIndex
      ensures Valid() && old(pq) == pq + [task]
      ensures task !in pq && task.heapIndex == -1
    {
      hide HeapOrdered, Keys;
      var n := |pq| - 1;
      ShorterHeap(Keys(pq), n);
      KeysAppended(pq[..n], pq[n]);
      assert pq == pq[..n] + [pq[n]];
      task := pq[n];
      assert task !in pq[..n];
      ghost var ks := Keys(pq[..n]);
      assert ks == Keys(pq)[..n];
      task.heapIndex := -1;
      pq := pq[..n];
      assert Keys(pq) == ks;
    }

    /** Remove of container/heap. */
    method RemoveAt(i: nat) returns (task: RefreshTask)
      requires i < |pq| && Valid()
      modifies `pq, Elems(pq)`heapIndex
      ensures Valid() && SameTasks(old(pq), pq + [task])
      ensures task == old(pq[i]) && task !in pq && task.heapIndex == -1
    {
      hide HeapOrdered, Rising, Loose, Rekeyed, Keys, Elems;
      var n := |pq| - 1;
      if n != i {
        ghost var was, ks := pq, Keys(pq);
        ReplacedIsRekeyed(ks, i, n);
        InElems(pq, i);
        InElems(pq, n);
        SwappedSame(pq, i, n, |pq|);
        Swap(i, n);
        assert Keys(was) == ks;
        KeysSwapped(was, i, n);
        RekeyedIsLoose(Keys(pq), n, i);
        assert pq[n..][0] == was[i];
        var moved := Down(i, n);
        if !moved {
          Up(i, n);
        }
        assert pq[n..][0] == was[i];
      } else {
        HeapPrefix(Keys(pq), n);
      }
      task := CutLast();
    }

    /** Pop of container/heap, for a queue that is not empty. */
    method Pop() returns (task: RefreshTask)
      requires |pq| > 0 && Valid()
      modifies `pq, Elems(pq)`heapIndex
      ensures Valid() && SameTasks(old(pq), pq + [task])
      ensures task == old(pq[0]) && task !in pq && task.heapIndex == -1
    {
      hide HeapOrdered, Rising, Loose, Rekeyed, Keys, Elems, Indexed, Swapped;
      var n := |pq| - 1;
      ghost var was, ks := pq, Keys(pq);
      InElems(pq, 0);
      InElems(pq, n);
      SwappedSame(pq, 0, n, |pq|);
      SwappedLast(pq, 0);
      Swap(0, n);
      assert Keys(was) == ks;
      KeysSwapped(was, 0, n);
      if n > 0 {
        ReplacedIsRekeyed(ks, 0, n);
        RekeyedIsLoose(Keys(pq), n, 0);
        var moved := Down(0, n);
        if !moved {
          RiseEnd(Keys(pq), n, 0);
        }
      } else {
        HeapPrefix(Keys(pq), n);
      }
      assert pq[n..][0] == was[0];
      assert pq == pq[..n] + [was[0]];
      task := CutLast();
    }
  }

  // ---------------------------------------------------------------- the scheduler

  const QUEUE_CAPACITY := 1000

  /** Nothing in `ks` is more urgent than `key`. */
  ghost predicate NoneSooner(ks: seq<Key>, key: Key) {
    forall k | 0 <= k < |ks| :: !Sooner(ks[k], key)
  }

  lemma HeadIsSoonest(ks: seq<Key>)
    requires |ks| > 0 && HeapOrdered(ks, |ks|)
    ensures NoneSooner(ks, ks[0])
  {
    hide HeapOrdered, Sooner;
    forall k | 0 <= k < |ks|
      ensures !Sooner(ks[k], ks[0])
    {
      RootIsSoonest(ks, |ks|, k);
    }
  }

  /** `sent` is in order of urgency and nothing in `rest` is more urgent than any of it. */
  ghost predicate InTurn(sent: seq<Key>, rest: seq<Key>) {
    && (forall i, j | 0 <= i < j < |sent| :: !Sooner(sent[j], sent[i]))
    && (forall i | 0 <= i < |sent| :: NoneSooner(rest, sent[i]))
  }

  /** Every task of `was` went to exactly one of three places. */
  ghost predicate Conserved(was: seq<RefreshTask>, sent: seq<RefreshTask>, dropped: seq<RefreshTask>,
                            pq: seq<RefreshTask>) {
    multiset(was) == multiset(sent) + multiset(dropped) + multiset(pq)
  }

  lemma NothingSent(pq: seq<RefreshTask>)
    ensures InTurn(Keys([]), Keys(pq)) && Conserved(pq, [], [], pq)
  {
  }

  lemma ElemsAppended(less: seq<RefreshTask>, task: RefreshTask)
    ensures Elems(less + [task]) == Elems(less) + {task}
  {
    forall t | t in Elems(less) + {task}
      ensures t in Elems(less + [task])
    {
      if t == task {
        assert (less + [task])[|less|] == t;
      }
    }
  }

  lemma KeysOfFewer(pq: seq<RefreshTask>, less: seq<RefreshTask>, k: nat)
    requires Elems(less) <= Elems(pq) && k < |less|
    ensures Keys(less)[k] in Keys(pq)
  {
    assert less[k] in Elems(pq);
    var i :| 0 <= i < |pq| && pq[i] == less[k];
    assert Keys(pq)[i] == Keys(less)[k];
  }

  lemma InTurnOfFewer(sent: seq<Key>, pq: seq<RefreshTask>, less: seq<RefreshTask>)
    requires InTurn(sent, Keys(pq)) && Elems(less) <= Elems(pq)
    ensures InTurn(sent, Keys(less))
  {
    hide Sooner, Keys, Elems;
    forall i, k | 0 <= i < |sent| && 0 <= k < |less|
      ensures !Sooner(Keys(less)[k], sent[i])
    {
      KeysOfFewer(pq, less, k);
      assert NoneSooner(Keys(pq), sent[i]);
    }
  }

  lemma InTurnOneMore(sent: seq<Key>, pq: seq<RefreshTask>, task: RefreshTask)
    requires InTurn(sent, Keys(pq)) && NoneSooner(Keys(pq), task.KeyOf()) && task in pq
    ensures InTurn(sent + [task.KeyOf()], Keys(pq))
  {
    hide Sooner, Keys;
    KeysOfFewer(pq, [task], 0);
    var i :| 0 <= i < |pq| && pq[i] == task;
    assert Keys(pq)[i] == task.KeyOf();
    forall i | 0 <= i < |sent|
      ensures !Sooner(task.KeyOf(), sent[i])
    {
      assert NoneSooner(Keys(pq), sent[i]);
    }
  }

  lemma ConservedByStep(was: seq<RefreshTask>, sent: seq<RefreshTask>, dropped: seq<RefreshTask>,
                        before: seq<RefreshTask>, after: seq<RefreshTask>, task: RefreshTask)
    requires Conserved(was, sent, dropped, before) && SameTasks(before, after + [task])
    ensures Conserved(was, sent + [task], dropped, after) && Conserved(was, sent, dropped + [task], after)
    ensures Elems(after) <= Elems(before) == Elems(after) + {task} && |after| < |before| && task in before
  {
    ElemsAppended(after, task);
    assert task in Elems(before);
  }

  lemma ConservedReordered(was: seq<RefreshTask>, sent: seq<RefreshTask>, dropped: seq<RefreshTask>,
                           before: seq<RefreshTask>, after: seq<RefreshTask>, same: seq<RefreshTask>)
    requires Conserved(was, sent, dropped, before) && SameTasks(before, same) && SameTasks(after, same)
    ensures Conserved(was, sent, dropped, after) && Elems(after) == Elems(before)
  {
  }

  /** What it means not to be more urgent, in the fields of the tasks: the higher priority goes first, then the
      earlier time. */
  lemma NotSooner(a: RefreshTask, b: RefreshTask)
    ensures !Sooner(b.KeyOf(), a.KeyOf()) <==>
      a.priority > b.priority || (a.priority == b.priority && a.scheduledAt <= b.scheduledAt)
  {
  }

  lemma SoonestInFields(task: RefreshTask, pq: seq<RefreshTask>)
    requires NoneSooner(Keys(pq), task.KeyOf())
    ensures forall k | 0 <= k < |pq| ::
      || task.priority > pq[k].priority
      || (task.priority == pq[k].priority && task.scheduledAt <= pq[k].scheduledAt)
  {
    hide Keys, Sooner;
    forall k | 0 <= k < |pq|
      ensures
        || task.priority > pq[k].priority
        || (task.priority == pq[k].priority && task.scheduledAt <= pq[k].scheduledAt)
    {
      assert !Sooner(Keys(pq)[k], task.KeyOf());
      NotSooner(task, pq[k]);
    }
  }

  lemma SentInOrder(sent: seq<RefreshTask>, rest: seq<RefreshTask>)
    requires InTurn(Keys(sent), Keys(rest))
    ensures forall i, j | 0 <= i < j < |sent| ::
      || sent[i].priority > sent[j].priority
      || (sent[i].priority == sent[j].priority && sent[i].scheduledAt <= sent[j].scheduledAt)
  {
    hide Keys, Sooner, NoneSooner;
    forall i, j | 0 <= i < j < |sent|
      ensures
        || sent[i].priority > sent[j].priority
        || (sent[i].priority == sent[j].priority && sent[i].scheduledAt <= sent[j].scheduledAt)
    {
      assert !Sooner(Keys(sent)[j], Keys(sent)[i]);
      NotSooner(sent[i], sent[j]);
    }
  }

  lemma NothingMoreUrgentLeft(sent: seq<RefreshTask>, rest: seq<RefreshTask>)
    requires InTurn(Keys(sent), Keys(rest))
    ensures forall i, k | 0 <= i < |sent| && 0 <= k < |rest| ::
      || sent[i].priority > rest[k].priority
      || (sent[i].priority == rest[k].priority && sent[i].scheduledAt <= rest[k].scheduledAt)
  {
    hide Keys, Sooner;
    forall i | 0 <= i < |sent|
      ensures forall k | 0 <= k < |rest| ::
        || sent[i].priority > rest[k].priority
        || (sent[i].priority == rest[k].priority && sent[i].scheduledAt <= rest[k].scheduledAt)
    {
      assert NoneSooner(Keys(rest), Keys(sent)[i]);
      hide NoneSooner;
      SoonestInFields(sent[i], rest);
    }
  }

  /** A task that claims a place in the heap is in the heap. */
  ghost predicate Anchored(tasks: map<int, RefreshTask>, pq: seq<RefreshTask>)
    reads tasks.Values`heapIndex
  {
    forall id | id in tasks :: tasks[id].dbID == id && (tasks[id].heapIndex >= 0 ==> tasks[id] in pq)
  }

  class RefreshScheduler {
    const heap: TaskQueue
    var tasks: map<int, RefreshTask>
    var queue: seq<RefreshTask>

    /** The heap is in order, the channel within its capacity, and a task that claims a place is in the heap. */
    ghost predicate Valid()
      reads this, heap, heap.pq, tasks.Values
    {
      heap.Valid() && |queue| <= QUEUE_CAPACITY && Anchored(tasks, heap.pq)
    }

    constructor ()
      ensures Valid() && heap.pq == [] && tasks == map[] && queue == []
    {
      heap := new TaskQueue();
      tasks, queue := map[], [];
    }

    /** Pushes a task, or moves it to its place when it is queued already and its key was changed. */
    method PushToQueue(task: RefreshTask)
      requires Indexed(heap.pq)
      requires task in heap.pq ==> Rekeyed(Keys(heap.pq), |heap.pq|, task.heapIndex)
      requires task !in heap.pq ==> HeapOrdered(Keys(heap.pq), |heap.pq|)
      requires 0 <= task.heapIndex < |heap.pq| ==> task in heap.pq
      modifies heap`pq, task`heapIndex, Elems(heap.pq)`heapIndex
      ensures heap.Valid()
      ensures SameTasks(heap.pq, if task in old(heap.pq) then old(heap.pq) else old(heap.pq) + [task])
      ensures old(Anchored(tasks, heap.pq)) ==> Anchored(tasks, heap.pq)
    {
      hide HeapOrdered, Rekeyed, Keys;
      ghost var was := heap.pq;
      var idx := task.heapIndex;
      if 0 <= idx < |heap.pq| {
        heap.Fix(idx);
      } else {
        ghost var ks := Keys(heap.pq);
        task.heapIndex := -1;
        assert Keys(heap.pq) == ks;
        heap.Push(task);
        ElemsAppended(was, task);
      }
      assert Elems(heap.pq) == Elems(was) + {task};
      forall id | id in tasks && tasks[id].heapIndex >= 0
        ensures old(Anchored(tasks, heap.pq)) ==> tasks[id] in heap.pq
      {
        assert tasks[id] in Elems(heap.pq) || tasks[id] !in Elems(was);
      }
    }

    method RemoveFromQueue(task: RefreshTask)
      requires heap.Valid()
      requires 0 <= task.heapIndex < |heap.pq| ==> task in heap.pq
      modifies heap`pq, Elems(heap.pq)`heapIndex
      ensures heap.Valid() && task !in heap.pq
      ensures task in old(heap.pq) ==> SameTasks(old(heap.pq), heap.pq + [task]) && task.heapIndex == -1
      ensures task !in old(heap.pq) ==> heap.pq == old(heap.pq)
    {
      var idx := task.heapIndex;
      if 0 <= idx < |heap.pq| {
        var removed := heap.RemoveAt(idx);
      }
    }

    /** Takes the most urgent task, or null from an empty queue. */
    method PopFromQueue() returns (task: RefreshTask?)
      requires heap.Valid()
      modifies heap`pq, Elems(heap.pq)`heapIndex
      ensures heap.Valid() && (task == null <==> old(heap.pq) == [])
      ensures task == null ==> heap.pq == []
      ensures task != null ==> SameTasks(old(heap.pq), heap.pq + [task]) && task == old(heap.pq[0])
      ensures task != null ==> task !in heap.pq && task.heapIndex == -1 && NoneSooner(old(Keys(heap.pq)), task.KeyOf())
      ensures task != null ==> forall k | 0 <= k < |old(heap.pq)| ::
        || task.priority > old(heap.pq)[k].priority
        || (task.priority == old(heap.pq)[k].priority && task.scheduledAt <= old(heap.pq)[k].scheduledAt)
      ensures old(Anchored(tasks, heap.pq)) ==> Anchored(tasks, heap.pq)
    {
      if |heap.pq| == 0 {
        return null;
      }
      hide HeapOrdered, Rekeyed, Keys, NoneSooner, Indexed;
      HeadIsSoonest(Keys(heap.pq));
      ghost var was := heap.pq;
      SoonestInFields(heap.pq[0], was);
      task := heap.Pop();
      ElemsAppended(heap.pq, task);
      forall id | id in tasks && tasks[id].heapIndex >= 0
        ensures old(Anchored(tasks, heap.pq)) ==> tasks[id] in heap.pq
      {
        assert tasks[id] in Elems(heap.pq) || tasks[id] == task || tasks[id] !in Elems(was);
      }
    }

    /** Moves due tasks to the channel, most urgent first, until the head is not due or the channel is full.
        `dropped` lists the due tasks that were taken out because they are not pending any more. */
    method ProcessScheduledTasks(now: int) returns (ghost sent: seq<RefreshTask>, ghost dropped: seq<RefreshTask>)
      requires Valid()
      modifies this`queue, heap`pq, Elems(heap.pq)`heapIndex
      ensures Valid()
      ensures Conserved(old(heap.pq), sent, dropped, heap.pq)
      ensures queue == old(queue) + sent && InTurn(Keys(sent), Keys(heap.pq))
      ensures forall i, j | 0 <= i < j < |sent| ::
        || sent[i].priority > sent[j].priority
        || (sent[i].priority == sent[j].priority && sent[i].scheduledAt <= sent[j].scheduledAt)
      ensures forall i, k | 0 <= i < |sent| && 0 <= k < |heap.pq| ::
        || sent[i].priority > heap.pq[k].priority
        || (sent[i].priority == heap.pq[k].priority && sent[i].scheduledAt <= heap.pq[k].scheduledAt)
      ensures forall i | 0 <= i < |sent| :: sent[i].state == Pending && sent[i].scheduledAt <= now
      ensures forall i | 0 <= i < |dropped| :: dropped[i].state != Pending && dropped[i].scheduledAt <= now
      ensures heap.pq == [] || heap.pq[0].scheduledAt > now || |queue| == 1000
    {
      hide HeapOrdered, Sooner, Rekeyed, Keys, Indexed, InTurn, NoneSooner, Elems, Anchored, Conserved, SameTasks;
      sent, dropped := [], [];
      NothingSent(heap.pq);
      while |heap.pq| > 0 && heap.pq[0].scheduledAt <= now
        invariant heap.Valid() && |queue| <= QUEUE_CAPACITY && Anchored(tasks, heap.pq)
        invariant Conserved(old(heap.pq), sent, dropped, heap.pq)
        invariant Elems(heap.pq) <= old(Elems(heap.pq))
        invariant queue == old(queue) + sent && InTurn(Keys(sent), Keys(heap.pq))
        invariant forall i | 0 <= i < |sent| :: sent[i].state == Pending && sent[i].scheduledAt <= now
        invariant forall i | 0 <= i < |dropped| :: dropped[i].state != Pending && dropped[i].scheduledAt <= now
        decreases |heap.pq|
      {
        ghost var was, ks, so := heap.pq, Keys(heap.pq), Keys(sent);
        var task := PopFromQueue();
        assert Keys(was) == ks && Keys(sent) == so;
        ConservedByStep(old(heap.pq), sent, dropped, was, heap.pq, task);
        if task.state != Pending {
          InTurnOfFewer(so, was, heap.pq);
          dropped := dropped + [task];
          continue;
        }
        if |queue| == QUEUE_CAPACITY {
          ghost var popped := heap.pq;
          PushToQueue(task);
          assert SameTasks(heap.pq, popped + [task]);
          ConservedReordered(old(heap.pq), sent, dropped, was, heap.pq, popped + [task]);
          assert Keys(was) == ks && Keys(sent) == so;
          InTurnOfFewer(so, was, heap.pq);
          SentInOrder(sent, heap.pq);
          NothingMoreUrgentLeft(sent, heap.pq);
          return;
        }
        InTurnOneMore(so, was, task);
        KeysAppended(sent, task);
        InTurnOfFewer(so + [task.KeyOf()], was, heap.pq);
        queue := queue + [task];
        sent := sent + [task];
      }
      SentInOrder(sent, heap.pq);
      NothingMoreUrgentLeft(sent, heap.pq);
    }

    /** Changes the key of a task where it stands, which leaves the heap in need of a fix at that place. */
    method Rekey(task: RefreshTask, at: int, priority: int)
      requires Valid() && tasks.Values >= {task}
      modifies task`state, task`scheduledAt, task`priority, task`attempts
      ensures task.KeyOf() == Key(priority, at) && task.state == Pending && task.attempts == 0
      ensures task in heap.pq ==> Rekeyed(Keys(heap.pq), |heap.pq|, task.heapIndex)
      ensures task !in heap.pq ==> HeapOrdered(Keys(heap.pq), |heap.pq|)
    {
      hide HeapOrdered, Sooner, Elems;
      ghost var ks := Keys(heap.pq);
      task.state, task.scheduledAt, task.priority, task.attempts := Pending, at, priority, 0;
      if task in heap.pq {
        assert Keys(heap.pq) == ks[task.heapIndex := task.KeyOf()];
      } else {
        assert Keys(heap.pq) == ks;
      }
    }

    /** Schedules a refresh at the time and priority worked out for the account; a running task is left alone. */
    method Schedule(dbID: int, at: int, priority: int)
      requires Valid()
      modifies this`tasks, heap`pq, Elems(heap.pq)`heapIndex, if dbID in tasks then {tasks[dbID]} else {}
      ensures Valid()
      ensures dbID in tasks && forall id | id != dbID :: id in tasks <==> id in old(tasks)
      ensures forall id | id in old(tasks) :: tasks[id] == old(tasks[id])
      ensures !(dbID in old(tasks) && old(tasks[dbID].state) == Running) ==>
        && tasks[dbID].KeyOf() == Key(priority, at) && tasks[dbID].state == Pending && tasks[dbID].attempts == 0
        && SameTasks(heap.pq, if tasks[dbID] in old(heap.pq) then old(heap.pq) else old(heap.pq) + [tasks[dbID]])
      ensures dbID in old(tasks) && old(tasks[dbID].state) == Running ==>
        heap.pq == old(heap.pq) && tasks[dbID].KeyOf() == old(tasks[dbID].KeyOf())
    {
      hide HeapOrdered, Sooner, Rekeyed, Keys, Elems;
      if dbID in tasks {
        var existing := tasks[dbID];
        if existing.state != Running {
          Rekey(existing, at, priority);
          PushToQueue(existing);
        }
        return;
      }
      ghost var ks := Keys(heap.pq);
      var task := new RefreshTask(dbID, at, priority);
      assert Keys(heap.pq) == ks;
      tasks := tasks[dbID := task];
      PushToQueue(task);
    }
  }
}
