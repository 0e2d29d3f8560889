/** The active-request counter of one account under every interleaving of the atomic loads,
    compare-and-swaps and releases of any number of threads. */
module ActiveCounter {

  type Thread = nat

  /** A thread is outside, has loaded the counter for an attempt under `limit`, has been picked by the
      slow scan, or holds a slot. */
  datatype Phase = Outside | Loaded(seen: int, limit: int) | Picked | Holding

  datatype State = State(active: int, phases: map<Thread, Phase>)

  datatype Step =
    | Load(t: Thread, limit: int)     // tryAcquireAccount reads the counter
    | GiveUp(t: Thread)               // the value read is not below the limit
    | Swap(t: Thread)                 // compare-and-swap to the value read plus one
    | SlowPick(t: Thread, limit: int) // NextExcluding reads the counter and finds it below the limit
    | SlowAdd(t: Thread)              // NextExcluding adds one, unconditionally
    | Release(t: Thread)

  function PhaseOf(s: State, t: Thread): Phase {
    if t in s.phases then s.phases[t] else Outside
  }

  predicate Enabled(s: State, st: Step) {
    match st
    case Load(t, limit) => PhaseOf(s, t) == Outside && limit > 0
    case GiveUp(t) => PhaseOf(s, t).Loaded? && PhaseOf(s, t).seen >= PhaseOf(s, t).limit
    case Swap(t) => PhaseOf(s, t).Loaded? && PhaseOf(s, t).seen < PhaseOf(s, t).limit
    case SlowPick(t, limit) => PhaseOf(s, t) == Outside && s.active < limit
    case SlowAdd(t) => PhaseOf(s, t) == Picked
    case Release(t) => PhaseOf(s, t) == Holding
  }

  /** A failed swap goes round the loop: it leaves the thread outside, about to load again. */
  function Next(s: State, st: Step): State
    requires Enabled(s, st)
  {
    match st
    case Load(t, limit) => s.(phases := s.phases[t := Loaded(s.active, limit)])
    case GiveUp(t) => s.(phases := s.phases[t := Outside])
    case Swap(t) =>
      if s.active == s.phases[t].seen then State(s.active + 1, s.phases[t := Holding])
      else s.(phases := s.phases[t := Outside])
    case SlowPick(t, _) => s.(phases := s.phases[t := Picked])
    case SlowAdd(t) => State(s.active + 1, s.phases[t := Holding])
    case Release(t) => State(s.active - 1, s.phases[t := Outside])
  }

  ghost function Holders(s: State): set<Thread> {
    set t | t in s.phases && s.phases[t] == Holding
  }

  const INITIAL: State := State(0, map[])

  /** The state after an interleaving. */
  ghost function After(steps: seq<Step>): State
    requires Possible(steps)
    decreases |steps|, 1
  {
    if steps == [] then INITIAL else Next(After(steps[..|steps| - 1]), steps[|steps| - 1])
  }

  ghost predicate Possible(steps: seq<Step>)
    decreases |steps|, 0
  {
    steps == [] || (Possible(steps[..|steps| - 1]) && Enabled(After(steps[..|steps| - 1]), steps[|steps| - 1]))
  }

  /** The largest limit any thread of the interleaving was given. */
  function LargestLimit(steps: seq<Step>): int {
    if steps == [] then 0
    else
      var before := LargestLimit(steps[..|steps| - 1]);
      var last := steps[|steps| - 1];
      if (last.Load? || last.SlowPick?) && last.limit > before then last.limit else before
  }

  /** A thread changes its phase. */
  lemma HoldersAfter(s: State, active: int, t: Thread, p: Phase)
    ensures Holders(State(active, s.phases[t := p])) == if p == Holding then Holders(s) + {t} else Holders(s) - {t}
    ensures t in Holders(s) <==> PhaseOf(s, t) == Holding
  {
  }

  lemma NextHolders(s: State, st: Step)
    requires Enabled(s, st) && s.active == |Holders(s)|
    ensures Next(s, st).active == |Holders(Next(s, st))|
  {
    hide Holders;
    HoldersAfter(s, s.active, st.t, Outside);
    HoldersAfter(s, s.active, st.t, Picked);
    HoldersAfter(s, s.active + 1, st.t, Holding);
    HoldersAfter(s, s.active - 1, st.t, Outside);
    if st.Load? {
      HoldersAfter(s, s.active, st.t, Loaded(s.active, st.limit));
    }
    assert st.t !in Holders(s) ==> Holders(s) - {st.t} == Holders(s);
  }

  /** In every interleaving the counter is the number of holders, so it is never negative. */
  lemma {:induction false} CounterCountsHolders(steps: seq<Step>)
    requires Possible(steps)
    ensures 0 <= After(steps).active == |Holders(After(steps))|
  {
    if steps == [] {
      assert Holders(INITIAL) == {};
    } else {
      CounterCountsHolders(steps[..|steps| - 1]);
      NextHolders(After(steps[..|steps| - 1]), steps[|steps| - 1]);
    }
  }

  /** A loaded limit is one that some thread was given. */
  lemma {:induction false} LoadedLimits(steps: seq<Step>)
    requires Possible(steps)
    ensures forall t | t in After(steps).phases && After(steps).phases[t].Loaded? ::
              After(steps).phases[t].limit <= LargestLimit(steps)
  {
    if steps != [] {
      LoadedLimits(steps[..|steps| - 1]);
    }
  }

  ghost predicate Within(steps: seq<Step>)
    requires Possible(steps)
  {
    After(steps).active <= LargestLimit(steps)
  }

  /** One more step leaves the counter within the largest limit, unless it is the plain scan adding to a counter that
      stands at that limit. */
  lemma WithinStep(steps: seq<Step>)
    requires Possible(steps) && steps != [] && Within(steps[..|steps| - 1])
    ensures Within(steps) <==>
      !(steps[|steps| - 1].SlowAdd? && After(steps[..|steps| - 1]).active >= LargestLimit(steps[..|steps| - 1]))
  {
    var before := steps[..|steps| - 1];
    LoadedLimits(before);
    match steps[|steps| - 1] {
      case Swap(t) => assert After(before).phases[t].Loaded?;
      case _ =>
    }
  }

  lemma {:induction false} PrefixPossible(steps: seq<Step>, n: nat)
    requires Possible(steps) && n <= |steps|
    ensures Possible(steps[..n])
    decreases |steps|
  {
    if n == |steps| {
      assert steps[..n] == steps;
    } else {
      PrefixPossible(steps[..|steps| - 1], n);
      assert steps[..|steps| - 1][..n] == steps[..n];
    }
  }

  ghost predicate WithinSoFar(steps: seq<Step>, n: nat)
    requires Possible(steps) && n <= |steps|
  {
    PrefixPossible(steps, n);
    Within(steps[..n])
  }

  /** Before step `k` the counter is below the largest limit. */
  ghost predicate RoomToAdd(steps: seq<Step>, k: nat)
    requires Possible(steps) && k < |steps|
  {
    PrefixPossible(steps, k);
    After(steps[..k]).active < LargestLimit(steps[..k])
  }

  lemma EndsHere(steps: seq<Step>)
    requires Possible(steps)
    ensures WithinSoFar(steps, |steps|) <==> Within(steps)
  {
    assert steps[..|steps|] == steps;
  }

  lemma SamePrefix(steps: seq<Step>, n: nat)
    requires Possible(steps) && n < |steps| && Possible(steps[..|steps| - 1])
    ensures WithinSoFar(steps, n) <==> WithinSoFar(steps[..|steps| - 1], n)
    ensures n < |steps| - 1 ==> (RoomToAdd(steps, n) <==> RoomToAdd(steps[..|steps| - 1], n))
  {
    assert steps[..|steps| - 1][..n] == steps[..n];
  }

  /** Throughout a run the counter stays within the largest limit any thread was given exactly when every addition of
      the plain scan, which nothing guards, finds it below that limit. */
  lemma {:induction false} WithinExactly(steps: seq<Step>)
    requires Possible(steps)
    ensures (forall n | 0 <= n <= |steps| :: WithinSoFar(steps, n))
      <==> (forall k | 0 <= k < |steps| && steps[k].SlowAdd? :: RoomToAdd(steps, k))
  {
    if steps == [] {
      assert WithinSoFar(steps, 0);
    } else {
      var last := |steps| - 1;
      var init := steps[..last];
      assert Possible(init);
      WithinExactly(init);
      EndsHere(steps);
      EndsHere(init);
      forall n | 0 <= n <= last {
        SamePrefix(steps, n);
      }
      assert RoomToAdd(steps, last) <==> After(init).active < LargestLimit(init);
      if Within(init) {
        WithinStep(steps);
      }
      hide Possible, After, LargestLimit, Within, WithinSoFar, RoomToAdd;
      assert forall k | 0 <= k < last :: init[k] == steps[k];
      if forall n | 0 <= n <= last :: WithinSoFar(init, n) {
        assert WithinSoFar(init, last) && Within(init);
        assert forall n | 0 <= n <= last :: WithinSoFar(steps, n);
        assert forall k | 0 <= k < last && steps[k].SlowAdd? :: RoomToAdd(steps, k);
      } else {
        var n :| 0 <= n <= last && !WithinSoFar(init, n);
        assert !WithinSoFar(steps, n);
      }
    }
  }

  lemma {:induction false} PickedBySlowScan(steps: seq<Step>)
    requires Possible(steps)
    requires forall k | 0 <= k < |steps| :: !steps[k].SlowPick?
    ensures forall t | t in After(steps).phases :: After(steps).phases[t] != Picked
    ensures forall k | 0 <= k < |steps| :: !steps[k].SlowAdd?
  {
    if steps != [] {
      var init := steps[..|steps| - 1];
      PickedBySlowScan(init);
      assert !steps[|steps| - 1].SlowPick?;
      assert forall k | 0 <= k < |init| :: init[k] == steps[k];
    }
  }

  /** So while every acquisition goes through the compare-and-swap, the counter never exceeds the largest limit that
      any thread was given. */
  lemma SwapsKeepLimit(steps: seq<Step>)
    requires Possible(steps)
    requires forall k | 0 <= k < |steps| :: !steps[k].SlowPick?
    ensures After(steps).active <= LargestLimit(steps)
  {
    PickedBySlowScan(steps);
    WithinExactly(steps);
    assert steps[..|steps|] == steps && WithinSoFar(steps, |steps|);
  }

  lemma OneMore(steps: seq<Step>, st: Step)
    requires Possible(steps) && Enabled(After(steps), st)
    ensures Possible(steps + [st]) && After(steps + [st]) == Next(After(steps), st)
    ensures LargestLimit(steps + [st]) ==
      if (st.Load? || st.SlowPick?) && st.limit > LargestLimit(steps) then st.limit else LargestLimit(steps)
  {
    assert (steps + [st])[..|steps|] == steps;
  }

  /** The slow scan reads and adds in two steps under a shared lock: two threads pass a limit of one together. */
  lemma SlowScanCanOvershoot()
    ensures var steps := [SlowPick(0, 1), SlowPick(1, 1), SlowAdd(0), SlowAdd(1)];
            Possible(steps) && After(steps).active == 2 > LargestLimit(steps)
  {
    var s1, s2, s3 := [SlowPick(0, 1)], [SlowPick(0, 1), SlowPick(1, 1)], [SlowPick(0, 1), SlowPick(1, 1), SlowAdd(0)];
    assert s1[..0] == [] && s1[0] == SlowPick(0, 1);
    OneMore([], SlowPick(0, 1));
    assert [] + [SlowPick(0, 1)] == s1 && After(s1) == State(0, map[0 := Picked]);
    OneMore(s1, SlowPick(1, 1));
    assert s1 + [SlowPick(1, 1)] == s2 && After(s2) == State(0, map[0 := Picked, 1 := Picked]);
    OneMore(s2, SlowAdd(0));
    assert s2 + [SlowAdd(0)] == s3 && After(s3) == State(1, map[0 := Holding, 1 := Picked]);
    OneMore(s3, SlowAdd(1));
    assert s3 + [SlowAdd(1)] == [SlowPick(0, 1), SlowPick(1, 1), SlowAdd(0), SlowAdd(1)];
  }

  /** A swap that succeeds did so below its own limit, whatever happened since the load. */
  lemma SwapRespectsOwnLimit(steps: seq<Step>, t: Thread)
    requires Possible(steps) && Enabled(After(steps), Swap(t)) && After(steps).active == PhaseOf(After(steps), t).seen
    ensures Next(After(steps), Swap(t)).active <= PhaseOf(After(steps), t).limit
    ensures |Holders(Next(After(steps), Swap(t)))| == |Holders(After(steps))| + 1
  {
    CounterCountsHolders(steps);
    NextHolders(After(steps), Swap(t));
  }
}
