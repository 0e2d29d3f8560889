/** The conversation cache behind previous_response_id: what a response is remembered as, how long and how
    much of it, and how the next request is expanded from it. */
module ResponseCache {
  import opened Wrappers

  const TTL := 600_000
  const MAX_ENTRIES := 2000
  const MAX_ITEMS := 200

  // ---------------------------------------------------------------- items

  datatype Kind = FunctionCall | FunctionCallOutput | OtherKind

  /** An input or output item: an object with an optional server id, or some other JSON value. */
  datatype Item = Object(kind: Kind, id: Option<string>, callId: string, rest: string) | NotObject(text: string)

  predicate IsCall(item: Item) {
    item.Object? && item.kind == FunctionCall
  }

  predicate IsOutput(item: Item) {
    item.Object? && item.kind == FunctionCallOutput
  }

  /** Forgets the id the server gave, never the call id. */
  function StripID(item: Item): Item {
    if item.Object? then item.(id := None) else item
  }

  function StripAll(items: seq<Item>): (r: seq<Item>)
    ensures |r| == |items| && forall i | 0 <= i < |items| :: r[i] == StripID(items[i])
  {
    if items == [] then [] else StripAll(items[..|items| - 1]) + [StripID(items[|items| - 1])]
  }

  function CallsOf(output: seq<Item>): (r: seq<Item>)
    ensures forall i | 0 <= i < |r| :: IsCall(r[i])
  {
    if output == [] then []
    else CallsOf(output[..|output| - 1]) + if IsCall(output[|output| - 1]) then [output[|output| - 1]] else []
  }

  /** The last `MAX_ITEMS` items. */
  function Tail(items: seq<Item>): seq<Item> {
    if |items| > MAX_ITEMS then items[|items| - MAX_ITEMS..] else items
  }

  /** Every call output has the call it answers somewhere before it. */
  ghost predicate Paired(items: seq<Item>) {
    forall j | 0 <= j < |items| && IsOutput(items[j]) ::
      exists i :: 0 <= i < j && IsCall(items[i]) && items[i].callId == items[j].callId
  }

  lemma StripConcat(a: seq<Item>, b: seq<Item>)
    ensures StripAll(a + b) == StripAll(a) + StripAll(b)
  {
  }

  lemma StripNothing()
    ensures StripAll([]) == []
  {
  }

  lemma StripStep(items: seq<Item>, i: nat)
    requires i < |items|
    ensures StripAll(items[..i + 1]) == StripAll(items[..i]) + [StripID(items[i])]
  {
    assert items[..i + 1][..i] == items[..i];
  }

  lemma KeptCall(before: seq<Item>, calls: seq<Item>, item: Item)
    ensures before + StripAll(calls + [item]) == before + StripAll(calls) + [StripID(item)]
  {
    StripStep(calls + [item], |calls|);
    assert (calls + [item])[..|calls|] == calls && (calls + [item])[..|calls| + 1] == calls + [item];
  }

  lemma StripTwice(items: seq<Item>)
    ensures StripAll(StripAll(items)) == StripAll(items)
  {
  }

  lemma TailOfTail(a: seq<Item>, b: seq<Item>)
    ensures Tail(Tail(a) + b) == Tail(a + b)
  {
  }

  lemma TailStripped(a: seq<Item>)
    ensures Tail(StripAll(a)) == StripAll(Tail(a))
  {
  }

  /** Stripping ids does not separate a call from its output. */
  lemma PairedStripped(items: seq<Item>)
    ensures Paired(StripAll(items)) <==> Paired(items)
  {
    var s := StripAll(items);
    if Paired(items) {
      forall j | 0 <= j < |s| && IsOutput(s[j])
        ensures exists i :: 0 <= i < j && IsCall(s[i]) && s[i].callId == s[j].callId
      {
        assert IsOutput(items[j]);
        var i :| 0 <= i < j && IsCall(items[i]) && items[i].callId == items[j].callId;
        assert IsCall(s[i]);
      }
    }
    if Paired(s) {
      forall j | 0 <= j < |items| && IsOutput(items[j])
        ensures exists i :: 0 <= i < j && IsCall(items[i]) && items[i].callId == items[j].callId
      {
        assert IsOutput(s[j]);
        var i :| 0 <= i < j && IsCall(s[i]) && s[i].callId == s[j].callId;
        assert IsCall(items[i]);
      }
    }
  }

  // ---------------------------------------------------------------- whole conversations

  datatype Turn = Turn(input: seq<Item>, output: seq<Item>)

  function Said(turn: Turn): seq<Item> {
    StripAll(turn.input) + StripAll(CallsOf(turn.output))
  }

  /** Everything a conversation has said that is worth replaying: inputs and function calls, without ids. */
  function History(turns: seq<Turn>): seq<Item> {
    if turns == [] then [] else History(turns[..|turns| - 1]) + Said(turns[|turns| - 1])
  }

  /** What the cache keeps of a conversation, turn by turn: each turn sees only what was kept before it. */
  function Remembered(turns: seq<Turn>): seq<Item> {
    if turns == [] then []
    else
      var last := turns[|turns| - 1];
      Tail(StripAll(Remembered(turns[..|turns| - 1]) + last.input) + StripAll(CallsOf(last.output)))
  }

  /** `copy` is `item` without the id the server gave it, if any. */
  predicate BareCopy(copy: Item, item: Item) {
    if item.Object? then copy == Object(item.kind, None, item.callId, item.rest) else copy == item
  }

  lemma {:induction false} CallsConcat(a: seq<Item>, b: seq<Item>)
    ensures CallsOf(a + b) == CallsOf(a) + CallsOf(b)
  {
    if b == [] {
      assert a + b == a;
    } else {
      assert (a + b)[..|a + b| - 1] == a + b[..|b| - 1];
      CallsConcat(a, b[..|b| - 1]);
    }
  }

  /** The function calls of an output and nothing else, in their order. */
  lemma CallsExactly(before: seq<Item>, item: Item, after: seq<Item>)
    ensures CallsOf(before + [item] + after) ==
      CallsOf(before) + (if item.Object? && item.kind == FunctionCall then [item] else []) + CallsOf(after)
    ensures CallsOf([]) == []
  {
    CallsConcat(before + [item], after);
    CallsConcat(before, [item]);
    assert [item][..0] == [];
  }

  lemma HistoryOneMore(before: seq<Turn>, turn: Turn)
    ensures History(before + [turn]) == History(before) + Said(turn) && History([]) == []
  {
    hide Said;
    assert (before + [turn])[..|before|] == before;
  }

  /** Each turn adds bare copies of its input items and then of its function calls, one for each, in their order. */
  lemma HistoryExactly(before: seq<Turn>, turn: Turn)
    ensures var calls := CallsOf(turn.output);
      var was, all := History(before), History(before + [turn]);
      && |all| == |was| + |turn.input| + |calls| && all[..|was|] == was
      && (forall i | 0 <= i < |turn.input| :: BareCopy(all[|was| + i], turn.input[i]))
      && (forall i | 0 <= i < |calls| :: BareCopy(all[|was| + |turn.input| + i], calls[i]))
    ensures History([]) == []
  {
    hide CallsOf, StripAll, History;
    HistoryOneMore(before, turn);
    var input, calls := StripAll(turn.input), StripAll(CallsOf(turn.output));
    assert Said(turn) == input + calls;
  }

  lemma TailOfNothing()
    ensures Tail([]) == []
  {
  }

  lemma SaidAfter(kept: seq<Item>, turn: Turn)
    requires StripAll(kept) == kept
    ensures StripAll(kept + turn.input) + StripAll(CallsOf(turn.output)) == kept + Said(turn)
  {
    StripConcat(kept, turn.input);
  }

  lemma {:induction false} HistoryHasNoIDs(turns: seq<Turn>)
    ensures StripAll(History(turns)) == History(turns)
  {
    if turns != [] {
      var last, before := turns[|turns| - 1], turns[..|turns| - 1];
      HistoryHasNoIDs(before);
      StripTwice(last.input);
      StripTwice(CallsOf(last.output));
      StripConcat(StripAll(last.input), StripAll(CallsOf(last.output)));
      StripConcat(History(before), Said(last));
    }
  }

  /** Cutting at every turn loses no more than cutting the whole history once at the end. */
  lemma {:induction false} RememberedIsTailOfHistory(turns: seq<Turn>)
    ensures Remembered(turns) == Tail(History(turns))
    ensures StripAll(Remembered(turns)) == Remembered(turns)
  {
    hide Tail, StripAll, Said;
    if turns == [] {
      HistoryHasNoIDs(turns);
      TailStripped([]);
      assert Tail([]) == [] by { TailOfNothing(); }
    } else {
      var last, before := turns[|turns| - 1], turns[..|turns| - 1];
      RememberedIsTailOfHistory(before);
      SaidAfter(Remembered(before), last);
      TailOfTail(History(before), Said(last));
      HistoryHasNoIDs(turns);
      TailStripped(History(turns));
    }
  }

  /** Nothing that is remembered has an id. */
  lemma NoIDsRemembered(turns: seq<Turn>, i: nat)
    requires i < |Remembered(turns)| && Remembered(turns)[i].Object?
    ensures Remembered(turns)[i].id == None
  {
    RememberedIsTailOfHistory(turns);
    assert StripAll(Remembered(turns))[i] == StripID(Remembered(turns)[i]);
  }

  /** The cache remembers a conversation whole exactly while it fits. */
  lemma WholeExactlyWhileItFits(turns: seq<Turn>)
    ensures Remembered(turns) == History(turns) <==> |History(turns)| <= 200
  {
    RememberedIsTailOfHistory(turns);
  }

  /** While a history fits, the next input is expanded to exactly that history and itself, so an output in
      it stands after the call it answers just when it does in the conversation as the client saw it. */
  lemma ExpandedKeepsPairs(turns: seq<Turn>, input: seq<Item>)
    requires |History(turns)| <= MAX_ITEMS
    ensures Remembered(turns) + input == History(turns) + input
    ensures Paired(Remembered(turns) + input) <==> Paired(History(turns) + StripAll(input))
  {
    RememberedIsTailOfHistory(turns);
    HistoryHasNoIDs(turns);
    StripConcat(History(turns), input);
    PairedStripped(History(turns) + input);
  }

  /** The call that `items[j]` answers stands before it, at or after `from`. */
  ghost predicate AnsweredFrom(items: seq<Item>, from: nat, j: nat)
    requires j < |items| && items[j].Object?
  {
    exists i :: from <= i < j && IsCall(items[i]) && items[i].callId == items[j].callId
  }

  lemma {:induction false} PairedTail(items: seq<Item>, from: nat)
    requires from <= |items|
    ensures Paired(items[from..]) <==>
      forall j | from <= j < |items| && IsOutput(items[j]) :: AnsweredFrom(items, from, j)
  {
    var rest := items[from..];
    if Paired(rest) {
      forall j | from <= j < |items| && IsOutput(items[j])
        ensures AnsweredFrom(items, from, j)
      {
        assert rest[j - from] == items[j];
        var i :| 0 <= i < j - from && IsCall(rest[i]) && rest[i].callId == items[j].callId;
        assert items[from + i] == rest[i];
      }
    }
    if forall j | from <= j < |items| && IsOutput(items[j]) :: AnsweredFrom(items, from, j) {
      forall j | 0 <= j < |rest| && IsOutput(rest[j])
        ensures exists i :: 0 <= i < j && IsCall(rest[i]) && rest[i].callId == rest[j].callId
      {
        assert rest[j] == items[from + j];
        var i :| from <= i < from + j && IsCall(items[i]) && items[i].callId == rest[j].callId;
        assert rest[i - from] == items[i];
      }
    }
  }

  /** Cutting separates an output from its call only when that call stood before the cut. */
  lemma LostCall(items: seq<Item>, from: nat)
    requires from <= |items| && Paired(items) && !Paired(items[from..])
    ensures exists j | from <= j < |items| && IsOutput(items[j]) ::
      AnsweredFrom(items, 0, j) && !AnsweredFrom(items, from, j)
  {
    PairedTail(items, from);
    var j :| from <= j < |items| && IsOutput(items[j]) && !AnsweredFrom(items, from, j);
    assert AnsweredFrom(items, 0, j);
  }

  /** How much of a history the cut leaves out. */
  function CutAt(turns: seq<Turn>): nat {
    if |History(turns)| > MAX_ITEMS then |History(turns)| - MAX_ITEMS else 0
  }

  /** Whatever the length of a conversation, every output in its expansion follows its call exactly when each output
      still there, or new, has such a call among the last `MAX_ITEMS` items of the history, or after them. */
  lemma PairedExactlyWhileCallsAreKept(turns: seq<Turn>, input: seq<Item>)
    ensures var all := History(turns) + input;
      && Remembered(turns) + input == all[CutAt(turns)..]
      && (Paired(Remembered(turns) + input) <==>
            forall j | CutAt(turns) <= j < |all| && IsOutput(all[j]) :: AnsweredFrom(all, CutAt(turns), j))
  {
    RememberedIsTailOfHistory(turns);
    hide History, Remembered, Paired, AnsweredFrom;
    var all := History(turns) + input;
    assert Remembered(turns) + input == all[CutAt(turns)..];
    PairedTail(all, CutAt(turns));
  }

  lemma HistoryOfTwo(first: Turn, second: Turn)
    ensures History([first, second]) == Said(first) + Said(second)
  {
    assert [first, second][..1] == [first] && [first][..0] == [];
    assert History([first]) == History([]) + Said(first);
  }

  lemma SaysACall(input: seq<Item>, call: Item)
    requires IsCall(call) && call.id == None && StripAll(input) == input
    ensures Said(Turn(input, [call])) == input + [call]
  {
    assert [call][..0] == [];
    assert CallsOf([call]) == CallsOf([]) + [call] == [call];
    assert StripAll([call]) == StripAll([]) + [call];
  }

  lemma NoCalls()
    ensures CallsOf([]) == [] && StripAll([]) == []
  {
  }

  /** Past that size the oldest items are gone, and an output may have lost its call: here the first of
      201 items is the call that the next input answers. */
  lemma LongHistoryCanLoseACall() returns (turns: seq<Turn>, input: seq<Item>)
    ensures |History(turns)| == MAX_ITEMS + 1
    ensures Paired(History(turns) + input) && !Paired(Remembered(turns) + input)
  {
    hide History, Remembered, Said, CallsOf, StripAll;
    var call, other := Object(FunctionCall, None, "a", ""), Object(FunctionCall, None, "b", "");
    var filler := seq(MAX_ITEMS - 1, i => NotObject(""));
    turns, input := [Turn([], [call]), Turn(filler, [other])], [Object(FunctionCallOutput, None, "a", "")];
    HistoryOfTwo(turns[0], turns[1]);
    NoCalls();
    SaysACall([], call);
    SaysACall(filler, other);
    var h := [call] + (filler + [other]);
    assert History(turns) == h;
    assert IsCall((h + input)[0]);
    RememberedIsTailOfHistory(turns);
    assert Tail(h) == filler + [other];
    var cut := filler + [other] + input;
    assert IsOutput(cut[MAX_ITEMS]) && cut[MAX_ITEMS].callId == "a";
    assert forall i | 0 <= i < MAX_ITEMS :: cut[i] == NotObject("") || cut[i] == other;
    assert other.callId != "a";
  }

  // ---------------------------------------------------------------- the cache

  datatype Entry = Entry(items: seq<Item>, createdAt: int)

  predicate Live(e: Entry, now: int) {
    now - e.createdAt <= TTL
  }

  /** The input of a request: one string, a list of items, or something else. */
  datatype Input = TextInput(text: string) | ListInput(items: seq<Item>) | OtherInput

  /** A string is sent as a list of one message. */
  function Wrapped(text: string): Item {
    Object(OtherKind, None, "", text)
  }

  /** What is sent when there is nothing to expand. */
  function Sent(input: Input): Option<seq<Item>> {
    match input
    case TextInput(text) => Some([Wrapped(text)])
    case ListInput(items) => Some(items)
    case OtherInput => None
  }

  /** What the expansion recognises as a list: a string that has been wrapped is none. */
  function Listed(input: Input): seq<Item> {
    if input.ListInput? then input.items else []
  }

  function ArrayOrEmpty(items: Option<seq<Item>>): seq<Item> {
    if items.Some? then items.value else []
  }

  lemma RememberedOneMore(before: seq<Turn>, turn: Turn)
    ensures Remembered(before + [turn]) ==
      Tail(StripAll(Remembered(before) + turn.input) + StripAll(CallsOf(turn.output)))
  {
    assert (before + [turn])[..|before|] == before;
  }

  lemma {:induction false} SubsetIsSmaller<T>(a: set<T>, b: set<T>)
    requires a <= b
    ensures |a| <= |b|
  {
    assert b == a + (b - a) && a * (b - a) == {};
  }

  lemma ShrunkMap<K, V>(m: map<K, V>, less: map<K, V>)
    requires less.Keys <= m.Keys
    ensures |less| <= |m|
  {
    SubsetIsSmaller(less.Keys, m.Keys);
    assert |less| == |less.Keys| && |m| == |m.Keys|;
  }

  lemma {:induction false} MoreCalls(output: seq<Item>, i: nat)
    requires i <= |output| && CallsOf(output[..i]) != []
    ensures CallsOf(output) != []
    decreases |output|
  {
    if i < |output| {
      assert output[..|output| - 1][..i] == output[..i];
      MoreCalls(output[..|output| - 1], i);
    } else {
      assert output[..i] == output;
    }
  }

  lemma CallsStep(output: seq<Item>, i: nat)
    requires i < |output|
    ensures CallsOf(output[..i + 1]) == CallsOf(output[..i]) + if IsCall(output[i]) then [output[i]] else []
  {
    assert output[..i + 1][..i] == output[..i];
  }

  class ResponseCache {
    var store: map<string, Entry>
    /** The turns of the conversation that ended with each response. */
    ghost var told: map<string, seq<Turn>>

    ghost predicate Valid()
      reads this
    {
      && |store| <= MAX_ENTRIES
      && forall id | id in store :: id in told && store[id].items == Remembered(told[id])
    }

    constructor ()
      ensures Valid() && store == map[]
    {
      store, told := map[], map[];
    }

    /** Stores the last items under a response; a full store first loses 200 entries of any kind. */
    method Set(id: string, items: seq<Item>, now: int)
      requires |store| <= MAX_ENTRIES
      modifies `store
      ensures |store| <= 2000 && id in store && store[id] == Entry(Tail(items), now)
      ensures forall k | k in store && k != id :: k in old(store) && store[k] == old(store[k])
      ensures old(|store|) < MAX_ENTRIES ==> store == old(store)[id := Entry(Tail(items), now)]
      ensures old(|store|) >= MAX_ENTRIES ==>
        exists kept: map<string, Entry> :: |kept| == old(|store|) - 200 && kept.Items <= old(store).Items
          && store == kept[id := Entry(Tail(items), now)]
    {
      var kept := store;
      if |store| >= MAX_ENTRIES {
        var deleteCount := MAX_ENTRIES / 10;
        while deleteCount > 0
          invariant 0 <= deleteCount <= 200 && |kept| == |store| - (200 - deleteCount)
          invariant kept.Items <= store.Items
        {
          assert |kept.Keys| > 0;
          var k :| k in kept.Keys;
          assert (kept - {k}).Keys == kept.Keys - {k};
          kept := kept - {k};
          deleteCount := deleteCount - 1;
        }
      }
      forall k | k in kept
        ensures k in store && kept[k] == store[k]
      {
        assert (k, kept[k]) in kept.Items;
      }
      assert kept[id := Entry(Tail(items), now)].Keys == kept.Keys + {id};
      store := kept[id := Entry(if |items| > MAX_ITEMS then items[|items| - MAX_ITEMS..] else items, now)];
    }

    /** What is remembered under a response; an expired entry is removed and not returned. */
    method Get(id: string, now: int) returns (items: Option<seq<Item>>)
      requires Valid()
      modifies `store
      ensures Valid()
      ensures items == if id in old(store) && Live(old(store[id]), now) then Some(old(store[id]).items) else None
      ensures id in old(store) ==> (items.Some? <==> now - old(store[id]).createdAt <= 10 * 60 * 1000)
      ensures store == if id in old(store) && !Live(old(store[id]), now) then old(store) - {id} else old(store)
    {
      if id !in store {
        return None;
      }
      var entry := store[id];
      if now - entry.createdAt > TTL {
        assert (store - {id}).Keys <= store.Keys;
        ShrunkMap(store, store - {id});
        store := store - {id};
        return None;
      }
      return Some(entry.items);
    }

    /** The background sweep: drops exactly the entries that have expired. */
    method Cleanup(now: int)
      requires Valid()
      modifies `store
      ensures Valid()
      ensures store == map k | k in old(store) && Live(old(store[k]), now) :: old(store[k])
      ensures forall k :: k in store <==> k in old(store) && now - old(store[k]).createdAt <= 10 * 60 * 1000
    {
      hide Remembered;
      var toDelete: seq<string> := [];
      var rest := store.Keys;
      while rest != {}
        invariant rest <= store.Keys
        invariant forall k | k in toDelete :: k in store && !Live(store[k], now)
        invariant forall k | k in store && k !in rest && !Live(store[k], now) :: k in toDelete
        decreases |rest|
      {
        var k :| k in rest;
        rest := rest - {k};
        if now - store[k].createdAt > TTL {
          toDelete := toDelete + [k];
        }
      }
      var i, kept := 0, store;
      while i < |toDelete|
        invariant 0 <= i <= |toDelete|
        invariant kept == map k | k in store && k !in toDelete[..i] :: store[k]
      {
        kept := kept - {toDelete[i]};
        i := i + 1;
      }
      ShrunkMap(store, kept);
      store := kept;
    }

    /** Remembers a response that calls functions: the expanded input and the calls, both without ids.
        `before` are the turns whose memory the input was expanded with. */
    method CacheCompleted(expandedInput: Option<seq<Item>>, id: string, output: Option<seq<Item>>, now: int,
                          ghost before: seq<Turn>, ghost turn: Turn)
      requires Valid() && ArrayOrEmpty(expandedInput) == Remembered(before) + turn.input
      requires output.Some? ==> output.value == turn.output
      modifies `store, `told
      ensures Valid()
      ensures id != "" && output.Some? && CallsOf(turn.output) != [] ==>
        && told == old(told)[id := before + [turn]]
        && id in store && store[id] == Entry(Remembered(before + [turn]), now)
        && (old(|store|) < MAX_ENTRIES ==> store == old(store)[id := store[id]])
      ensures !(id != "" && output.Some? && CallsOf(turn.output) != []) ==> store == old(store) && told == old(told)
    {
      hide StripAll, Tail, CallsOf, Remembered;
      if id == "" || output.None? {
        return;
      }
      var called := HasFunctionCall(output.value);
      if !called {
        return;
      }
      var input := ArrayOrEmpty(expandedInput);
      var items := StrippedItems(input, output.value);
      RememberedOneMore(before, turn);
      Set(id, items, now);
      told := told[id := before + [turn]];
    }

    method HasFunctionCall(output: seq<Item>) returns (found: bool)
      ensures found <==> CallsOf(output) != []
    {
      hide CallsOf;
      found := false;
      assert output[..0] == [] && output[..|output|] == output;
      NoCalls();
      var i := 0;
      while i < |output| && !found
        invariant 0 <= i <= |output| && (found <==> CallsOf(output[..i]) != [])
      {
        CallsStep(output, i);
        found := IsCall(output[i]);
        i := i + 1;
      }
      if found {
        MoreCalls(output, i);
      }
    }

    /** The loops that collect what is remembered: all input items, then the calls of the output. */
    method StrippedItems(input: seq<Item>, output: seq<Item>) returns (items: seq<Item>)
      ensures items == StripAll(input) + StripAll(CallsOf(output))
    {
      hide CallsOf, StripAll, StripID;
      items := [];
      var i := 0;
      StripNothing();
      while i < |input|
        invariant 0 <= i <= |input| && items == StripAll(input[..i])
      {
        StripStep(input, i);
        items := items + [StripID(input[i])];
        i := i + 1;
      }
      i := 0;
      assert input[..|input|] == input && output[..|output|] == output;
      NoCalls();
      while i < |output|
        invariant 0 <= i <= |output| && items == StripAll(input) + StripAll(CallsOf(output[..i]))
      {
        CallsStep(output, i);
        KeptCall(StripAll(input), CallsOf(output[..i]), output[i]);
        if IsCall(output[i]) {
          items := items + [StripID(output[i])];
        }
        i := i + 1;
      }
    }

    /** The input of a request, expanded by what is remembered of the response it continues.
        An input that is not a list, a wrapped string included, is dropped when there is something to expand. */
    method Expand(prevID: string, input: Input, now: int)
      returns (expanded: Option<seq<Item>>, ghost before: seq<Turn>)
      requires Valid()
      modifies `store
      ensures Valid()
      ensures var items := if input.ListInput? then input.items else [];
        var hit := prevID != "" && prevID in old(store) && now - old(store[prevID]).createdAt <= 10 * 60 * 1000;
        && before == (if hit then told[prevID] else [])
        && expanded == (if hit then Some(Remembered(before) + items) else Sent(input))
        && (hit && |History(before)| <= 200 ==> expanded == Some(History(before) + items))
      ensures prevID == "" || prevID !in old(store) || now - old(store[prevID]).createdAt > 10 * 60 * 1000 ==>
        match input
        case ListInput(items) => expanded == Some(items)
        case TextInput(text) => expanded == Some([Object(OtherKind, None, "", text)])
        case OtherInput => expanded == None
    {
      hide History, Remembered;
      expanded, before := Sent(input), [];
      if prevID != "" {
        var cached := Get(prevID, now);
        if cached.Some? {
          expanded, before := Some(cached.value + Listed(input)), told[prevID];
          RememberedIsTailOfHistory(before);
        }
      }
    }
  }
}
