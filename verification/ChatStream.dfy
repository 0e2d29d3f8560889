/** Chat Completions output: the stateful stream translator with its map from upstream items to tool-call
    indices, what a client reassembles from its chunks, and the collector used when nothing is streamed. */
module ChatStream {
  import opened Wrappers

  datatype Call = Call(id: string, name: string, arguments: string)

  /** An upstream event as far as these two readers look at it. */
  datatype Event =
    | TextDelta(text: string)
    | ReasoningDelta(text: string)
    | CallAdded(itemID: string, callID: string, name: string)
    | ArgumentsDelta(itemID: string, delta: string)
    | CallDone(call: Call)
    | ImageDone(markdown: string)
    | PartialImage(markdown: string)
    | UnknownDelta(text: string)
    | Completed(calls: seq<Call>)
    | Failed(message: string)
    | Silent

  predicate Terminal(e: Event) {
    e.Completed? || e.Failed?
  }

  datatype Chunk =
    | Content(text: string)
    | Reasoning(text: string)
    | Announce(index: nat, callID: string, name: string)
    | Arguments(index: nat, delta: string)
    | Final(reason: string)
    | ErrorChunk(message: string)

  // ---------------------------------------------------------------- the translator

  datatype ToolState = ToolState(index: map<string, nat>, next: nat)

  const NO_TOOLS := ToolState(map[], 0)

  function NextState(st: ToolState, e: Event): ToolState {
    if e.CallAdded? then ToolState(st.index[e.itemID := st.next], st.next + 1) else st
  }

  function ChunkFor(st: ToolState, e: Event): Option<Chunk> {
    match e
    case TextDelta(t) => Some(Content(t))
    case ReasoningDelta(t) => Some(Reasoning(t))
    case CallAdded(_, callID, name) => Some(Announce(st.next, callID, name))
    case ArgumentsDelta(item, d) => if item in st.index then Some(Arguments(st.index[item], d)) else None
    case ImageDone(m) => Some(Content(m))
    case PartialImage(m) => Some(Content(m))
    case UnknownDelta(t) => Some(Content(t))
    case Completed(_) => Some(Final(if st.next > 0 then "tool_calls" else "stop"))
    case Failed(m) => Some(ErrorChunk(if m == "" then "Codex upstream error" else m))
    case _ => None
  }

  class StreamTranslator {
    var toolCallMap: map<string, nat>
    var nextIdx: nat
    var hasToolCalls: bool

    function State(): ToolState
      reads this
    {
      ToolState(toolCallMap, nextIdx)
    }

    ghost predicate Valid()
      reads this
    {
      hasToolCalls <==> nextIdx > 0
    }

    constructor ()
      ensures Valid() && State() == NO_TOOLS
    {
      toolCallMap, nextIdx, hasToolCalls := map[], 0, false;
    }

    method Translate(e: Event) returns (chunk: Option<Chunk>, done: bool)
      requires Valid()
      modifies this
      ensures Valid() && State() == old(NextState(State(), e))
      ensures chunk == old(ChunkFor(State(), e)) && (done <==> Terminal(e))
    {
      match e {
        case TextDelta(t) => return Some(Content(t)), false;
        case ReasoningDelta(t) => return Some(Reasoning(t)), false;
        case CallAdded(item, callID, name) =>
          var tcIdx := nextIdx;
          toolCallMap := toolCallMap[item := tcIdx];
          nextIdx := nextIdx + 1;
          hasToolCalls := true;
          return Some(Announce(tcIdx, callID, name)), false;
        case ArgumentsDelta(item, d) =>
          if item !in toolCallMap {
            return None, false;
          }
          return Some(Arguments(toolCallMap[item], d)), false;
        case ImageDone(m) => return Some(Content(m)), false;
        case PartialImage(m) => return Some(Content(m)), false;
        case UnknownDelta(t) => return Some(Content(t)), false;
        case Completed(_) =>
          var reason := "stop";
          if hasToolCalls {
            reason := "tool_calls";
          }
          return Some(Final(reason)), true;
        case Failed(m) => return Some(ErrorChunk(if m == "" then "Codex upstream error" else m)), true;
        case _ => return None, false;
      }
    }
  }

  function AsSeq(chunk: Option<Chunk>): seq<Chunk> {
    if chunk.Some? then [chunk.value] else []
  }

  /** The chunks of a response: up to and with the first terminal event. */
  function Chunks(st: ToolState, events: seq<Event>): seq<Chunk>
    decreases |events|
  {
    if events == [] then []
    else
      AsSeq(ChunkFor(st, events[0])) + if Terminal(events[0]) then [] else Chunks(NextState(st, events[0]), events[1..])
  }

  function Appended(chunks: seq<Chunk>, chunk: Option<Chunk>): (r: seq<Chunk>)
    ensures r == chunks + AsSeq(chunk)
  {
    if chunk.Some? then chunks + [chunk.value] else chunks
  }

  /** What is left to send from event `i` on, if the response has not ended. */
  function Remainder(st: ToolState, events: seq<Event>, i: nat, done: bool): seq<Chunk>
    requires i <= |events|
  {
    if done then [] else Chunks(st, events[i..])
  }

  lemma SendOne(sent: seq<Chunk>, st: ToolState, events: seq<Event>, i: nat)
    requires i < |events|
    ensures var e := events[i];
      sent + Remainder(st, events, i, false) ==
      Appended(sent, ChunkFor(st, e)) + Remainder(NextState(st, e), events, i + 1, Terminal(e))
  {
    hide NextState, ChunkFor, AsSeq;
    assert events[i..][1..] == events[i + 1..];
    var a, b := AsSeq(ChunkFor(st, events[i])), Remainder(NextState(st, events[i]), events, i + 1, Terminal(events[i]));
    assert sent + (a + b) == (sent + a) + b;
  }

  lemma NothingLeft(st: ToolState, events: seq<Event>, i: nat, done: bool)
    requires i <= |events| && (i == |events| || done)
    ensures Remainder(st, events, i, done) == []
  {
  }

  method StreamChat(events: seq<Event>) returns (chunks: seq<Chunk>)
    ensures chunks == Chunks(NO_TOOLS, events)
  {
    hide NextState, ChunkFor, AsSeq, Chunks, Appended, Terminal;
    var translator := new StreamTranslator();
    chunks := [];
    var i, done := 0, false;
    assert events[0..] == events;
    while i < |events| && !done
      invariant 0 <= i <= |events| && translator.Valid() && fresh(translator)
      invariant Chunks(NO_TOOLS, events) == chunks + Remainder(translator.State(), events, i, done)
    {
      SendOne(chunks, translator.State(), events, i);
      var chunk;
      chunk, done := translator.Translate(events[i]);
      chunks := Appended(chunks, chunk);
      i := i + 1;
    }
    NothingLeft(translator.State(), events, i, done);
  }

  // ---------------------------------------------------------------- what the client puts together

  /** Content and tool calls as a client accumulates them: a call is announced once and grows by its index. */
  datatype Client = Client(text: string, calls: seq<Call>)

  function Receive(c: Client, chunk: Chunk): Client {
    match chunk
    case Content(t) => c.(text := c.text + t)
    case Announce(i, id, name) => if i == |c.calls| then c.(calls := c.calls + [Call(id, name, "")]) else c
    case Arguments(i, d) =>
      if i < |c.calls| then c.(calls := c.calls[i := c.calls[i].(arguments := c.calls[i].arguments + d)]) else c
    case _ => c
  }

  function ReceiveSome(c: Client, chunk: Option<Chunk>): Client {
    if chunk.Some? then Receive(c, chunk.value) else c
  }

  function ReceiveAll(c: Client, chunks: seq<Chunk>): Client
    decreases |chunks|
  {
    if chunks == [] then c else ReceiveAll(Receive(c, chunks[0]), chunks[1..])
  }

  /** The arguments sent for an item from here on, until the item is announced anew or the response ends. */
  function ArgumentsOf(item: string, events: seq<Event>): string {
    if events == [] || Terminal(events[0]) || (events[0].CallAdded? && events[0].itemID == item) then ""
    else
      (if events[0].ArgumentsDelta? && events[0].itemID == item then events[0].delta else "")
        + ArgumentsOf(item, events[1..])
  }

  /** Every announced call, in order, with the arguments sent for it. */
  function CallsIn(events: seq<Event>): seq<Call> {
    if events == [] || Terminal(events[0]) then []
    else if events[0].CallAdded?
    then [Call(events[0].callID, events[0].name, ArgumentsOf(events[0].itemID, events[1..]))] + CallsIn(events[1..])
    else CallsIn(events[1..])
  }

  /** The text that an event shows in a streamed answer. */
  function Shown(e: Event): string {
    match e
    case TextDelta(t) => t
    case ImageDone(m) => m
    case PartialImage(m) => m
    case UnknownDelta(t) => t
    case _ => ""
  }

  function StreamedText(events: seq<Event>): string {
    if events == [] || Terminal(events[0]) then "" else Shown(events[0]) + StreamedText(events[1..])
  }

  /** The items the map knows: each index belongs to the item announced last under it. */
  ghost predicate Tracks(st: ToolState, owners: seq<string>) {
    && st.next == |owners|
    && (forall item | item in st.index :: st.index[item] < |owners| && owners[st.index[item]] == item)
    && (forall i | 0 <= i < |owners| :: owners[i] in st.index)
  }

  /** Call `i` with what is still to come for it. */
  function Grown(st: ToolState, owners: seq<string>, calls: seq<Call>, events: seq<Event>, i: nat): Call
    requires i < |calls| == |owners|
  {
    if owners[i] in st.index && st.index[owners[i]] == i
    then calls[i].(arguments := calls[i].arguments + ArgumentsOf(owners[i], events))
    else calls[i]
  }

  function AllGrown(st: ToolState, owners: seq<string>, calls: seq<Call>, events: seq<Event>): seq<Call>
    requires |calls| == |owners|
  {
    seq(|calls|, i requires 0 <= i < |calls| => Grown(st, owners, calls, events, i))
  }

  lemma Reassociate<T>(a: seq<T>, b: seq<T>, d: seq<T>)
    ensures (a + b) + d == a + (b + d)
  {
  }

  lemma GrowsOn(call: Call, delta: string, more: string)
    ensures call.(arguments := call.arguments + delta).arguments + more == call.arguments + (delta + more)
    ensures call.arguments + "" == call.arguments
  {
    Reassociate(call.arguments, delta, more);
  }

  lemma CallsAfter(st: ToolState, c: Client, e: Event)
    requires st.next == |c.calls|
    ensures var calls := ReceiveSome(c, ChunkFor(st, e)).calls;
      && (e.CallAdded? ==> calls == c.calls + [Call(e.callID, e.name, "")])
      && (e.ArgumentsDelta? && e.itemID in st.index && st.index[e.itemID] < |c.calls| ==>
            var k := st.index[e.itemID];
            calls == c.calls[k := c.calls[k].(arguments := c.calls[k].arguments + e.delta)])
      && (!e.CallAdded? && !(e.ArgumentsDelta? && e.itemID in st.index) ==> calls == c.calls)
  {
  }

  lemma ArgumentsStep(item: string, events: seq<Event>)
    requires events != [] && !Terminal(events[0])
    ensures var e := events[0];
      ArgumentsOf(item, events) ==
        if e.CallAdded? && e.itemID == item then ""
        else if e.ArgumentsDelta? && e.itemID == item then e.delta + ArgumentsOf(item, events[1..])
        else ArgumentsOf(item, events[1..])
  {
    assert "" + ArgumentsOf(item, events[1..]) == ArgumentsOf(item, events[1..]);
  }

  function NewOwners(owners: seq<string>, e: Event): seq<string> {
    if e.CallAdded? then owners + [e.itemID] else owners
  }

  /** One event, seen from a call already announced: what is still to come for it shrinks by what it receives. */
  lemma GrownAt(st: ToolState, owners: seq<string>, c: Client, events: seq<Event>, i: nat)
    requires Tracks(st, owners) && |c.calls| == |owners| && events != [] && !Terminal(events[0]) && i < |owners|
    ensures var e := events[0];
      var c' := ReceiveSome(c, ChunkFor(st, e));
      |c'.calls| == NextState(st, e).next && |NewOwners(owners, e)| == |c'.calls|
      && Grown(NextState(st, e), NewOwners(owners, e), c'.calls, events[1..], i) ==
           Grown(st, owners, c.calls, events, i)
  {
    var e, rest := events[0], events[1..];
    var item := owners[i];
    assert item in st.index;
    var call := c.calls[i];
    assert e.ArgumentsDelta? && e.itemID in st.index ==>
      st.index[e.itemID] < |owners| && owners[st.index[e.itemID]] == e.itemID;
    ArgumentsStep(item, events);
    CallsAfter(st, c, e);
    hide ArgumentsOf, Terminal, Shown, ReceiveSome, ChunkFor, Tracks;
    var c' := ReceiveSome(c, ChunkFor(st, e));
    var mine := st.index[item] == i;
    if e.CallAdded? {
      assert c'.calls[i] == call && NewOwners(owners, e)[i] == item;
      GrowsOn(call, "", ArgumentsOf(item, events));
    } else if e.ArgumentsDelta? && e.itemID == item && mine {
      assert c'.calls[i] == call.(arguments := call.arguments + e.delta);
      GrowsOn(call, e.delta, ArgumentsOf(item, rest));
    } else {
      assert c'.calls[i] == call && NextState(st, e) == st;
    }
  }

  function NewCall(e: Event, rest: seq<Event>): seq<Call> {
    if e.CallAdded? then [Call(e.callID, e.name, ArgumentsOf(e.itemID, rest))] else []
  }

  lemma TracksOn(st: ToolState, owners: seq<string>, c: Client, e: Event)
    requires Tracks(st, owners) && |c.calls| == |owners|
    ensures Tracks(NextState(st, e), NewOwners(owners, e))
    ensures var c' := ReceiveSome(c, ChunkFor(st, e));
      |c'.calls| == |NewOwners(owners, e)| && c'.text == c.text + Shown(e)
  {
  }

  lemma GrownStep(st: ToolState, owners: seq<string>, c: Client, events: seq<Event>)
    requires Tracks(st, owners) && |c.calls| == |owners| && events != [] && !Terminal(events[0])
    ensures var e, rest := events[0], events[1..];
      var c' := ReceiveSome(c, ChunkFor(st, e));
      && Tracks(NextState(st, e), NewOwners(owners, e)) && |c'.calls| == |NewOwners(owners, e)|
      && AllGrown(NextState(st, e), NewOwners(owners, e), c'.calls, rest) ==
           AllGrown(st, owners, c.calls, events) + NewCall(e, rest)
      && c'.text == c.text + Shown(e)
  {
    var e, rest := events[0], events[1..];
    TracksOn(st, owners, c, e);
    forall i | 0 <= i < |owners| {
      GrownAt(st, owners, c, events, i);
    }
    if e.CallAdded? {
      assert "" + ArgumentsOf(e.itemID, rest) == ArgumentsOf(e.itemID, rest);
    }
    hide Tracks, ArgumentsOf, Terminal;
  }

  lemma ChunksOf(st: ToolState, events: seq<Event>)
    requires events != [] && !Terminal(events[0])
    ensures Chunks(st, events) == AsSeq(ChunkFor(st, events[0])) + Chunks(NextState(st, events[0]), events[1..])
  {
  }

  lemma TextAndCalls(events: seq<Event>)
    requires events != [] && !Terminal(events[0])
    ensures StreamedText(events) == Shown(events[0]) + StreamedText(events[1..])
    ensures CallsIn(events) == NewCall(events[0], events[1..]) + CallsIn(events[1..])
  {
  }

  lemma ReceiveMore(c: Client, chunk: Option<Chunk>, rest: seq<Chunk>)
    ensures ReceiveAll(c, AsSeq(chunk) + rest) == ReceiveAll(ReceiveSome(c, chunk), rest)
  {
    if chunk.Some? {
      assert ([chunk.value] + rest)[1..] == rest;
    } else {
      assert [] + rest == rest;
    }
  }

  lemma NothingMore(st: ToolState, owners: seq<string>, c: Client, events: seq<Event>)
    requires Tracks(st, owners) && |c.calls| == |owners| && (events == [] || Terminal(events[0]))
    ensures ReceiveAll(c, Chunks(st, events)) == c && CallsIn(events) == [] && StreamedText(events) == ""
    ensures AllGrown(st, owners, c.calls, events) == c.calls
  {
    forall i | 0 <= i < |owners|
      ensures Grown(st, owners, c.calls, events, i) == c.calls[i]
    {
      assert c.calls[i].arguments + "" == c.calls[i].arguments;
    }
    if events != [] {
      ReceiveMore(c, ChunkFor(st, events[0]), []);
    }
  }

  lemma {:induction false} ClientRebuilds(st: ToolState, owners: seq<string>, c: Client, events: seq<Event>)
    requires Tracks(st, owners) && |c.calls| == |owners|
    ensures var got := ReceiveAll(c, Chunks(st, events));
      got.text == c.text + StreamedText(events) && got.calls == AllGrown(st, owners, c.calls, events) + CallsIn(events)
    decreases |events|
  {
    if events != [] && !Terminal(events[0]) {
      hide Tracks, AllGrown, ReceiveSome, ReceiveAll, ArgumentsOf, Shown, NextState, ChunkFor;
      hide AsSeq, Chunks, StreamedText, CallsIn, NewCall, NewOwners, Terminal;
      var e := events[0];
      var st' := NextState(st, e);
      var chunk := ChunkFor(st, e);
      var c' := ReceiveSome(c, chunk);
      GrownStep(st, owners, c, events);
      ClientRebuilds(st', NewOwners(owners, e), c', events[1..]);
      ChunksOf(st, events);
      ReceiveMore(c, chunk, Chunks(st', events[1..]));
      TextAndCalls(events);
      Reassociate(c.text, Shown(e), StreamedText(events[1..]));
      Reassociate(AllGrown(st, owners, c.calls, events), NewCall(e, events[1..]), CallsIn(events[1..]));
    } else {
      NothingMore(st, owners, c, events);
    }
  }

  /** A client rebuilds exactly the announced calls, in order, each with all the arguments sent for it, and the text. */
  lemma StreamIsRebuilt(events: seq<Event>)
    ensures ReceiveAll(Client("", []), Chunks(NO_TOOLS, events)) == Client(StreamedText(events), CallsIn(events))
  {
    ClientRebuilds(NO_TOOLS, [], Client("", []), events);
    assert AllGrown(NO_TOOLS, [], [], events) == [];
    assert "" + StreamedText(events) == StreamedText(events);
  }

  /** Whether a response completes before it fails, or ends without either. */
  ghost predicate Completes(events: seq<Event>) {
    events != [] && (events[0].Completed? || (!events[0].Failed? && Completes(events[1..])))
  }

  /** The last chunk of a completed response says tool_calls exactly when a call was announced, and stop otherwise. */
  lemma {:induction false} FinishReason(st: ToolState, events: seq<Event>)
    requires Completes(events)
    ensures var chunks := Chunks(st, events);
      && chunks != []
      && chunks[|chunks| - 1] == Final(if st.next > 0 || CallsIn(events) != [] then "tool_calls" else "stop")
    decreases |events|
  {
    hide ArgumentsOf;
    if !Terminal(events[0]) {
      FinishReason(NextState(st, events[0]), events[1..]);
    }
  }

  /** A response that fails first is closed by the error the upstream gave, or by a standing text when it gave none. */
  lemma {:induction false} FailureIsShown(st: ToolState, events: seq<Event>, k: nat)
    requires k < |events| && events[k].Failed? && forall j | 0 <= j < k :: !Terminal(events[j])
    ensures var chunks := Chunks(st, events);
      && chunks != []
      && chunks[|chunks| - 1] ==
           ErrorChunk(if events[k].message == "" then "Codex upstream error" else events[k].message)
    decreases |events|
  {
    hide NextState;
    if k > 0 {
      assert !Terminal(events[0]);
      FailureIsShown(NextState(st, events[0]), events[1..], k - 1);
    }
  }

  /** The reasoning a client is shown, piece by piece. */
  function ReasoningIn(chunks: seq<Chunk>): seq<string> {
    if chunks == [] then []
    else (if chunks[0].Reasoning? then [chunks[0].text] else []) + ReasoningIn(chunks[1..])
  }

  /** The reasoning that was sent before the end of the response. */
  function ReasoningSent(events: seq<Event>): seq<string> {
    if events == [] || Terminal(events[0]) then []
    else (if events[0].ReasoningDelta? then [events[0].text] else []) + ReasoningSent(events[1..])
  }

  lemma ReasoningFirst(chunk: Option<Chunk>, rest: seq<Chunk>)
    ensures ReasoningIn(AsSeq(chunk) + rest) ==
      (if chunk.Some? && chunk.value.Reasoning? then [chunk.value.text] else []) + ReasoningIn(rest)
  {
    if chunk.Some? {
      assert ([chunk.value] + rest)[1..] == rest;
    } else {
      assert [] + rest == rest;
    }
  }

  lemma NoReasoning()
    ensures ReasoningIn([]) == []
  {
  }

  /** Every piece of reasoning reaches the client, in its order. */
  lemma {:induction false} ReasoningIsShown(st: ToolState, events: seq<Event>)
    ensures ReasoningIn(Chunks(st, events)) == ReasoningSent(events)
    decreases |events|
  {
    hide NextState, ReasoningIn;
    if events == [] {
      NoReasoning();
    } else if Terminal(events[0]) {
      ReasoningFirst(ChunkFor(st, events[0]), []);
      NoReasoning();
    } else {
      ReasoningFirst(ChunkFor(st, events[0]), Chunks(NextState(st, events[0]), events[1..]));
      ReasoningIsShown(NextState(st, events[0]), events[1..]);
    }
  }

  // ---------------------------------------------------------------- the answer that is not streamed

  function CollectedText(events: seq<Event>): string {
    if events == [] || Terminal(events[0]) then ""
    else (match events[0] case TextDelta(t) => t case ImageDone(m) => m case _ => "") + CollectedText(events[1..])
  }

  /** The calls reported as done before the end of the response. */
  function DoneCalls(events: seq<Event>): seq<Call> {
    if events == [] || Terminal(events[0]) then []
    else (if events[0].CallDone? then [events[0].call] else []) + DoneCalls(events[1..])
  }

  /** The calls listed by the event that completes the response. */
  function ListedCalls(events: seq<Event>): seq<Call> {
    if events == [] then []
    else if Terminal(events[0]) then (if events[0].Completed? then events[0].calls else [])
    else ListedCalls(events[1..])
  }

  lemma CollectOne(text: string, calls: seq<Call>, events: seq<Event>, i: nat)
    requires i < |events|
    ensures var e, rest := events[i], events[i + 1..];
      && (Terminal(e) ==> CollectedText(events[i..]) == "" && DoneCalls(events[i..]) == [])
      && (!Terminal(e) ==>
        && text + CollectedText(events[i..]) ==
             (match e case TextDelta(t) => text + t case ImageDone(m) => text + m case _ => text) + CollectedText(rest)
        && calls + DoneCalls(events[i..]) == (if e.CallDone? then calls + [e.call] else calls) + DoneCalls(rest)
        && ListedCalls(events[i..]) == ListedCalls(rest))
  {
    assert events[i..][1..] == events[i + 1..];
  }

  method Collect(events: seq<Event>) returns (text: string, calls: seq<Call>)
    ensures text == CollectedText(events)
    ensures calls == if DoneCalls(events) != [] then DoneCalls(events) else ListedCalls(events)
  {
    text, calls := "", [];
    var i := 0;
    assert events[0..] == events;
    while i < |events|
      invariant 0 <= i <= |events|
      invariant CollectedText(events) == text + CollectedText(events[i..])
      invariant DoneCalls(events) == calls + DoneCalls(events[i..])
      invariant ListedCalls(events) == ListedCalls(events[i..])
    {
      var e := events[i];
      CollectOne(text, calls, events, i);
      match e {
        case TextDelta(t) => text := text + t;
        case ImageDone(m) => text := text + m;
        case CallDone(call) => calls := calls + [call];
        case Completed(listed) =>
          if |calls| == 0 {
            calls := listed;
          }
          return;
        case Failed(_) => return;
        case _ =>
      }
      i := i + 1;
    }
  }

  // ---------------------------------------------------------------- the two answers compared

  /** What only the streamed answer shows: preview frames and deltas of unknown events. */
  function OnlyStreamed(e: Event): string {
    match e
    case PartialImage(m) => m
    case UnknownDelta(t) => t
    case _ => ""
  }

  ghost predicate NothingExtra(events: seq<Event>) {
    events == [] || Terminal(events[0]) || (OnlyStreamed(events[0]) == "" && NothingExtra(events[1..]))
  }

  /** The two answers carry the same text exactly when no preview frame or unknown delta had any. */
  lemma {:induction false} TextsAgree(events: seq<Event>)
    ensures |StreamedText(events)| >= |CollectedText(events)|
    ensures StreamedText(events) == CollectedText(events) <==> NothingExtra(events)
    ensures !NothingExtra(events) ==> |StreamedText(events)| > |CollectedText(events)|
  {
    if events != [] && !Terminal(events[0]) {
      TextsAgree(events[1..]);
    }
  }

  /** A preview frame shows in the streamed answer only. */
  lemma PreviewIsOnlyStreamed()
    ensures StreamedText([PartialImage("p")]) == "p" && CollectedText([PartialImage("p")]) == ""
  {
    assert StreamedText([PartialImage("p")]) == "p" + StreamedText([]);
    assert CollectedText([PartialImage("p")]) == "" + CollectedText([]);
  }

  /** A call that has been announced and not reported as done, with the arguments sent so far. */
  datatype Open = Open(itemID: string, call: Call)

  ghost predicate Unopened(open: seq<Open>, itemID: string) {
    forall k | 0 <= k < |open| :: open[k].itemID != itemID
  }

  ghost predicate DistinctItems(open: seq<Open>) {
    forall i, j | 0 <= i < j < |open| :: open[i].itemID != open[j].itemID
  }

  function Announced(e: Event): Open
    requires e.CallAdded?
  {
    Open(e.itemID, Call(e.callID, e.name, ""))
  }

  function Fed(o: Open, delta: string): Open {
    o.(call := o.call.(arguments := o.call.arguments + delta))
  }

  function Closed(open: seq<Open>, k: nat): seq<Open>
    requires k < |open|
  {
    open[..k] + open[k + 1..]
  }

  function OpenCalls(open: seq<Open>): seq<Call> {
    seq(|open|, i requires 0 <= i < |open| => open[i].call)
  }

  /** Upstream keeps its books: arguments are sent for open calls only, in any interleaving, and a call is reported as
      done with the arguments sent for it, in any order or, when `inOrder`, in the order of announcement; `left` are the
      calls still open when the response ends. An item id may be used again once its call is done. */
  ghost predicate Orderly(open: seq<Open>, events: seq<Event>, inOrder: bool, left: seq<Call>)
    decreases |events|
  {
    if events == [] || Terminal(events[0]) then OpenCalls(open) == left
    else
      var e, rest := events[0], events[1..];
      if e.CallAdded? then
        Unopened(open, e.itemID) && Orderly(open + [Announced(e)], rest, inOrder, left)
      else if e.ArgumentsDelta? then
        exists k | 0 <= k < |open| ::
          open[k].itemID == e.itemID && Orderly(open[k := Fed(open[k], e.delta)], rest, inOrder, left)
      else if e.CallDone? then
        exists k | 0 <= k < |open| ::
          (inOrder ==> k == 0) && open[k].call == e.call && Orderly(Closed(open, k), rest, inOrder, left)
      else Orderly(open, rest, inOrder, left)
  }

  /** An open call with the arguments that are still to come. */
  function Finish(o: Open, events: seq<Event>): Call {
    o.call.(arguments := o.call.arguments + ArgumentsOf(o.itemID, events))
  }

  function Finished(open: seq<Open>, events: seq<Event>): seq<Call> {
    seq(|open|, i requires 0 <= i < |open| => Finish(open[i], events))
  }

  lemma NothingToCome(open: seq<Open>, events: seq<Event>)
    requires events == [] || Terminal(events[0])
    ensures Finished(open, events) == OpenCalls(open)
  {
    forall i | 0 <= i < |open|
      ensures Finish(open[i], events) == open[i].call
    {
      assert open[i].call.arguments + "" == open[i].call.arguments;
    }
  }

  /** Nothing more is sent for an item that is not open, unless it is announced anew. */
  lemma {:induction false} NothingFor(item: string, open: seq<Open>, events: seq<Event>, inOrder: bool, left: seq<Call>)
    requires Orderly(open, events, inOrder, left) && Unopened(open, item)
    ensures ArgumentsOf(item, events) == ""
    decreases |events|
  {
    if events != [] && !Terminal(events[0]) {
      ArgumentsStep(item, events);
      var e, rest := events[0], events[1..];
      if e.CallAdded? {
        if e.itemID != item {
          NothingFor(item, open + [Announced(e)], rest, inOrder, left);
        }
      } else if e.ArgumentsDelta? {
        var k :| 0 <= k < |open| && open[k].itemID == e.itemID
          && Orderly(open[k := Fed(open[k], e.delta)], rest, inOrder, left);
        NothingFor(item, open[k := Fed(open[k], e.delta)], rest, inOrder, left);
      } else if e.CallDone? {
        var k :| 0 <= k < |open| && open[k].call == e.call && Orderly(Closed(open, k), rest, inOrder, left);
        NothingFor(item, Closed(open, k), rest, inOrder, left);
      } else {
        NothingFor(item, open, rest, inOrder, left);
      }
    }
  }

  lemma FinishStep(o: Open, events: seq<Event>)
    requires events != [] && !Terminal(events[0])
    ensures var e := events[0];
      Finish(o, events) ==
        if e.CallAdded? && e.itemID == o.itemID then o.call
        else if e.ArgumentsDelta? && e.itemID == o.itemID then Finish(Fed(o, e.delta), events[1..])
        else Finish(o, events[1..])
  {
    ArgumentsStep(o.itemID, events);
    hide ArgumentsOf;
    var e := events[0];
    if e.CallAdded? && e.itemID == o.itemID {
      assert o.call.arguments + "" == o.call.arguments;
    } else if e.ArgumentsDelta? && e.itemID == o.itemID {
      Reassociate(o.call.arguments, e.delta, ArgumentsOf(o.itemID, events[1..]));
    }
  }

  lemma FinishedAdded(open: seq<Open>, events: seq<Event>)
    requires events != [] && events[0].CallAdded? && Unopened(open, events[0].itemID)
    ensures var e := events[0];
      Finished(open + [Announced(e)], events[1..]) ==
        Finished(open, events) + [Call(e.callID, e.name, ArgumentsOf(e.itemID, events[1..]))]
  {
    var e := events[0];
    forall i | 0 <= i < |open| {
      FinishStep(open[i], events);
    }
    assert "" + ArgumentsOf(e.itemID, events[1..]) == ArgumentsOf(e.itemID, events[1..]);
    hide ArgumentsOf;
  }

  lemma FinishedFed(open: seq<Open>, events: seq<Event>, k: nat)
    requires events != [] && events[0].ArgumentsDelta? && k < |open| && open[k].itemID == events[0].itemID
    requires DistinctItems(open)
    ensures Finished(open[k := Fed(open[k], events[0].delta)], events[1..]) == Finished(open, events)
  {
    forall i | 0 <= i < |open| {
      FinishStep(open[i], events);
    }
    hide Finish;
  }

  lemma FinishedClosed(open: seq<Open>, events: seq<Event>, k: nat)
    requires events != [] && events[0].CallDone? && k < |open|
    requires ArgumentsOf(open[k].itemID, events[1..]) == ""
    ensures var all := Finished(open, events);
      |all| == |open| && all[k] == open[k].call && Finished(Closed(open, k), events[1..]) == all[..k] + all[k + 1..]
  {
    forall i | 0 <= i < |open| {
      FinishStep(open[i], events);
    }
    assert open[k].call.arguments + "" == open[k].call.arguments;
  }

  lemma FinishedOther(open: seq<Open>, events: seq<Event>)
    requires events != [] && !Terminal(events[0]) && !events[0].CallAdded? && !events[0].ArgumentsDelta?
    ensures Finished(open, events) == Finished(open, events[1..])
  {
    forall i | 0 <= i < |open| {
      FinishStep(open[i], events);
    }
    hide Finish;
  }

  lemma DoneStep(events: seq<Event>)
    requires events != [] && !Terminal(events[0])
    ensures DoneCalls(events) == if events[0].CallDone? then [events[0].call] + DoneCalls(events[1..])
      else DoneCalls(events[1..])
    ensures CallsIn(events) ==
      if events[0].CallAdded? then NewCall(events[0], events[1..]) + CallsIn(events[1..]) else CallsIn(events[1..])
  {
    assert [] + DoneCalls(events[1..]) == DoneCalls(events[1..]);
  }

  lemma ClosedDistinct(open: seq<Open>, k: nat)
    requires k < |open| && DistinctItems(open)
    ensures DistinctItems(Closed(open, k)) && Unopened(Closed(open, k), open[k].itemID)
  {
    var c := Closed(open, k);
    assert forall i | 0 <= i < |c| :: c[i] == open[if i < k then i else i + 1];
  }

  /** The calls reported as done from here on are the open calls, finished, and the calls still to be announced. */
  ghost predicate Balanced(open: seq<Open>, events: seq<Event>, inOrder: bool, left: seq<Call>) {
    && multiset(DoneCalls(events) + left) == multiset(Finished(open, events)) + multiset(CallsIn(events))
    && (inOrder ==> DoneCalls(events) + left == Finished(open, events) + CallsIn(events))
  }

  lemma AddedBalances(open: seq<Open>, events: seq<Event>, inOrder: bool, left: seq<Call>)
    requires events != [] && events[0].CallAdded? && Unopened(open, events[0].itemID)
    requires Balanced(open + [Announced(events[0])], events[1..], inOrder, left)
    ensures Balanced(open, events, inOrder, left)
  {
    DoneStep(events);
    FinishedAdded(open, events);
    hide CallsIn, DoneCalls, Finished, ArgumentsOf;
    Reassociate(Finished(open, events), NewCall(events[0], events[1..]), CallsIn(events[1..]));
  }

  lemma FedBalances(open: seq<Open>, events: seq<Event>, k: nat, inOrder: bool, left: seq<Call>)
    requires events != [] && events[0].ArgumentsDelta? && k < |open| && open[k].itemID == events[0].itemID
    requires DistinctItems(open)
    requires Balanced(open[k := Fed(open[k], events[0].delta)], events[1..], inOrder, left)
    ensures Balanced(open, events, inOrder, left)
  {
    DoneStep(events);
    FinishedFed(open, events, k);
    hide CallsIn, DoneCalls, Finished;
  }

  lemma OneMore(all: seq<Call>, k: nat, calls: seq<Call>, done: seq<Call>, inOrder: bool)
    requires k < |all| && (inOrder ==> k == 0)
    requires multiset(done) == multiset(all[..k] + all[k + 1..]) + multiset(calls)
    requires inOrder ==> done == all[..k] + all[k + 1..] + calls
    ensures multiset([all[k]] + done) == multiset(all) + multiset(calls)
    ensures inOrder ==> [all[k]] + done == all + calls
  {
    assert all == all[..k] + ([all[k]] + all[k + 1..]);
    if inOrder {
      assert all[..0] + all[1..] == all[1..];
      assert all == [all[0]] + all[1..];
      Reassociate([all[0]], all[1..], calls);
    }
  }

  lemma ClosedBalances(open: seq<Open>, events: seq<Event>, k: nat, inOrder: bool, left: seq<Call>)
    requires events != [] && events[0].CallDone? && k < |open| && open[k].call == events[0].call && (inOrder ==> k == 0)
    requires ArgumentsOf(open[k].itemID, events[1..]) == ""
    requires Balanced(Closed(open, k), events[1..], inOrder, left)
    ensures Balanced(open, events, inOrder, left)
  {
    DoneStep(events);
    FinishedClosed(open, events, k);
    hide CallsIn, DoneCalls, Finished, Closed, ArgumentsOf;
    OneMore(Finished(open, events), k, CallsIn(events[1..]), DoneCalls(events[1..]) + left, inOrder);
    Reassociate([events[0].call], DoneCalls(events[1..]), left);
  }

  lemma OtherBalances(open: seq<Open>, events: seq<Event>, inOrder: bool, left: seq<Call>)
    requires events != [] && !Terminal(events[0])
    requires !events[0].CallAdded? && !events[0].ArgumentsDelta? && !events[0].CallDone?
    requires Balanced(open, events[1..], inOrder, left)
    ensures Balanced(open, events, inOrder, left)
  {
    DoneStep(events);
    FinishedOther(open, events);
    hide CallsIn, DoneCalls, Finished;
  }

  lemma AddedDistinct(open: seq<Open>, o: Open)
    requires DistinctItems(open) && Unopened(open, o.itemID)
    ensures DistinctItems(open + [o])
  {
  }

  lemma FedDistinct(open: seq<Open>, k: nat, delta: string)
    requires DistinctItems(open) && k < |open|
    ensures DistinctItems(open[k := Fed(open[k], delta)])
  {
  }

  lemma {:induction false} BooksBalance(open: seq<Open>, events: seq<Event>, inOrder: bool, left: seq<Call>)
    requires Orderly(open, events, inOrder, left) && DistinctItems(open)
    ensures Balanced(open, events, inOrder, left)
    decreases |events|
  {
    if events == [] || Terminal(events[0]) {
      NothingToCome(open, events);
      assert [] + left == left == left + [];
    } else {
      hide Balanced, ArgumentsOf, DistinctItems, Closed, Fed;
      var e, rest := events[0], events[1..];
      if e.CallAdded? {
        AddedDistinct(open, Announced(e));
        BooksBalance(open + [Announced(e)], rest, inOrder, left);
        AddedBalances(open, events, inOrder, left);
      } else if e.ArgumentsDelta? {
        var k :| 0 <= k < |open| && open[k].itemID == e.itemID
          && Orderly(open[k := Fed(open[k], e.delta)], rest, inOrder, left);
        FedDistinct(open, k, e.delta);
        BooksBalance(open[k := Fed(open[k], e.delta)], rest, inOrder, left);
        FedBalances(open, events, k, inOrder, left);
      } else if e.CallDone? {
        var k :| && 0 <= k < |open| && (inOrder ==> k == 0)
                 && open[k].call == e.call && Orderly(Closed(open, k), rest, inOrder, left);
        ClosedDistinct(open, k);
        BooksBalance(Closed(open, k), rest, inOrder, left);
        NothingFor(open[k].itemID, Closed(open, k), rest, inOrder, left);
        ClosedBalances(open, events, k, inOrder, left);
      } else {
        BooksBalance(open, rest, inOrder, left);
        OtherBalances(open, events, inOrder, left);
      }
    }
  }

  /** However the arguments are cut into pieces and the pieces of several open calls interleaved, the streamed calls are
      the calls reported as done and those left open; in this order when calls are done in the order announced. */
  lemma CallsAgree(events: seq<Event>, inOrder: bool, left: seq<Call>)
    requires Orderly([], events, inOrder, left)
    ensures multiset(CallsIn(events)) == multiset(DoneCalls(events)) + multiset(left)
    ensures inOrder ==> CallsIn(events) == DoneCalls(events) + left
  {
    BooksBalance([], events, inOrder, left);
    assert Finished([], events) == [];
  }

  /** The calls of the two answers: those a client rebuilds from the stream, and those collected. */
  ghost function StreamedCalls(events: seq<Event>): seq<Call> {
    ReceiveAll(Client("", []), Chunks(NO_TOOLS, events)).calls
  }

  ghost function CollectedCalls(events: seq<Event>): seq<Call> {
    if DoneCalls(events) != [] then DoneCalls(events) else ListedCalls(events)
  }

  /** So both answers have the same calls exactly when none is left open, or, when no call was reported as done, when
      the completing event lists just those left open. */
  lemma AnswersAgreeOnCalls(events: seq<Event>, inOrder: bool, left: seq<Call>)
    requires Orderly([], events, inOrder, left)
    ensures multiset(StreamedCalls(events)) == multiset(CollectedCalls(events)) <==>
      if DoneCalls(events) != [] then left == [] else multiset(left) == multiset(ListedCalls(events))
    ensures inOrder ==> (StreamedCalls(events) == CollectedCalls(events) <==>
      if DoneCalls(events) != [] then left == [] else left == ListedCalls(events))
  {
    CallsAgree(events, inOrder, left);
    StreamIsRebuilt(events);
    hide Orderly, CallsIn, DoneCalls, ListedCalls, ReceiveAll, Chunks;
    var streamed, done := CallsIn(events), DoneCalls(events);
    assert |multiset(streamed)| == |multiset(done)| + |multiset(left)|;
    assert |multiset(done)| == |done| && |multiset(left)| == |left|;
    if left == [] {
      assert done + left == done;
    }
    if done == [] {
      assert multiset(done) + multiset(left) == multiset(left) && done + left == left;
    }
  }

  /** A call listed only by the completing event reaches one answer and not the other; one left open, the other. */
  lemma AnswersCanDiffer(call: Call)
    ensures StreamedCalls([Completed([call])]) == [] && CollectedCalls([Completed([call])]) == [call]
    ensures var events := [CallAdded("i", call.id, call.name), Completed([])];
      StreamedCalls(events) == [Call(call.id, call.name, "")] && CollectedCalls(events) == []
  {
    var events := [CallAdded("i", call.id, call.name), Completed([])];
    assert events[1..] == [Completed([])];
    StreamIsRebuilt([Completed([call])]);
    StreamIsRebuilt(events);
    hide ReceiveAll, Chunks;
    assert ArgumentsOf("i", events[1..]) == "" && CallsIn(events[1..]) == [];
    assert CallsIn(events) == [Call(call.id, call.name, "")];
    assert DoneCalls(events[1..]) == [] && ListedCalls(events[1..]) == [] && DoneCalls(events) == [];
  }

  // ---------------------------------------------------------------- calls one after the other

  function Joined(pieces: seq<string>): string {
    if pieces == [] then "" else pieces[0] + Joined(pieces[1..])
  }

  function Deltas(itemID: string, pieces: seq<string>): seq<Event> {
    if pieces == [] then [] else [ArgumentsDelta(itemID, pieces[0])] + Deltas(itemID, pieces[1..])
  }

  lemma FedIsOrderly(o: Open, delta: string, rest: seq<Event>, left: seq<Call>)
    requires Orderly([Fed(o, delta)], rest, true, left)
    ensures Orderly([o], [ArgumentsDelta(o.itemID, delta)] + rest, true, left)
  {
    var events := [ArgumentsDelta(o.itemID, delta)] + rest;
    assert events[1..] == rest && [o][0 := Fed([o][0], delta)] == [Fed(o, delta)];
  }

  lemma DoneIsOrderly(o: Open, rest: seq<Event>, left: seq<Call>)
    requires Orderly([], rest, true, left)
    ensures Orderly([o], [CallDone(o.call)] + rest, true, left)
  {
    var events := [CallDone(o.call)] + rest;
    assert events[1..] == rest && Closed([o], 0) == [] && [o][0].call == o.call;
  }

  /** A call in its pieces, up to the event that reports it as done. */
  lemma {:induction false} PiecesAreOrderly(o: Open, pieces: seq<string>, done: Call, rest: seq<Event>, left: seq<Call>)
    requires done == o.call.(arguments := o.call.arguments + Joined(pieces)) && Orderly([], rest, true, left)
    ensures Orderly([o], Deltas(o.itemID, pieces) + [CallDone(done)] + rest, true, left)
    decreases |pieces|
  {
    hide Orderly;
    var events := Deltas(o.itemID, pieces) + [CallDone(done)] + rest;
    if pieces == [] {
      assert o.call.arguments + "" == o.call.arguments;
      assert events == [CallDone(done)] + rest;
      DoneIsOrderly(o, rest, left);
    } else {
      Reassociate(o.call.arguments, pieces[0], Joined(pieces[1..]));
      PiecesAreOrderly(Fed(o, pieces[0]), pieces[1..], done, rest, left);
      var later := Deltas(o.itemID, pieces[1..]) + [CallDone(done)] + rest;
      assert events == [ArgumentsDelta(o.itemID, pieces[0])] + later;
      FedIsOrderly(o, pieces[0], later, left);
    }
  }

  /** Calls that are streamed one after the other are orderly, and so are events that have nothing to do with calls. */
  lemma OneCallIsOrderly(itemID: string, call: Call, pieces: seq<string>, rest: seq<Event>, left: seq<Call>)
    requires Joined(pieces) == call.arguments && Orderly([], rest, true, left)
    ensures Orderly([], [CallAdded(itemID, call.id, call.name)] + (Deltas(itemID, pieces) + [CallDone(call)] + rest),
                    true, left)
  {
    var o := Announced(CallAdded(itemID, call.id, call.name));
    assert "" + Joined(pieces) == call.arguments;
    PiecesAreOrderly(o, pieces, call, rest, left);
    var later := Deltas(itemID, pieces) + [CallDone(call)] + rest;
    assert ([CallAdded(itemID, call.id, call.name)] + later)[1..] == later;
    assert [] + [o] == [o];
  }
}
