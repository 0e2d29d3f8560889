/** Tool input that arrives outside a tool block: what is left waiting, told from the upstream events alone, and when
    the next call hands over more than its own arguments. */
module StrayInput {
  import opened AnthropicBatch
  import opened AnthropicStream

  /** Which kind of block is open. */
  datatype Front = NoBlock | OpenText | OpenThinking | OpenTool

  /** The event closes whatever block is open. */
  predicate Closes(front: Front, e: Upstream) {
    match e
    case ItemAdded(item) => item == ReasoningItem || item.FunctionCallItem?
    case TextDelta(t) => t != "" && front != OpenText
    case ThinkingDelta(t) => t != "" && front != OpenThinking
    case ContentDone => true
    case ItemDone => true
    case Completed(_, _) => true
    case Failed => true
    case _ => false
  }

  function NextFront(front: Front, e: Upstream): Front {
    if !Closes(front, e) then front
    else
      match e
      case ItemAdded(item) => if item == ReasoningItem then OpenThinking else OpenTool
      case TextDelta(_) => OpenText
      case ThinkingDelta(_) => OpenThinking
      case _ => NoBlock
  }

  /** What the events alone say of the block that is open after them. */
  function FrontOf(events: seq<Upstream>): Front {
    if events == [] then NoBlock else NextFront(FrontOf(events[..|events| - 1]), events[|events| - 1])
  }

  /** Event `k` closes a tool block. */
  predicate ClosesTool(events: seq<Upstream>, k: nat)
    requires k < |events|
  {
    FrontOf(events[..k]) == OpenTool && Closes(OpenTool, events[k])
  }

  /** The tool input that came since a tool block was last closed. */
  function Waiting(events: seq<Upstream>): string {
    if events == [] then ""
    else
      var n := |events| - 1;
      if events[n].ToolDelta? then Waiting(events[..n]) + events[n].delta
      else if ClosesTool(events, n) then ""
      else Waiting(events[..n])
  }

  function FrontOfKind(kind: BlockKind): Front {
    match kind
    case TextBlock => OpenText
    case ThinkingBlock => OpenThinking
    case ToolBlock(_, _) => OpenTool
  }

  function FrontIn(d: Doc): Front {
    if !d.open || d.blocks == [] then NoBlock else FrontOfKind(d.blocks[|d.blocks| - 1].kind)
  }

  /** A document that has not ended, with a block to be open. */
  predicate Sound(d: Doc) {
    d.ended == Running && (d.open ==> d.blocks != [])
  }

  lemma ClosedFront(clean: Cleaner, d: Doc)
    requires Sound(d)
    ensures var c := Closed(clean, d);
      Sound(c) && FrontIn(c) == NoBlock && !c.open && c.buffer == if FrontIn(d) == OpenTool then "" else d.buffer
  {
  }

  lemma BegunFront(clean: Cleaner, d: Doc, kind: BlockKind)
    requires Sound(d)
    ensures var o := Opened(clean, d, kind);
      && Sound(o) && FrontIn(o) == FrontOfKind(kind) && o.blocks != []
      && o.blocks[|o.blocks| - 1] == Block(kind, [])
      && o.buffer == if FrontIn(d) == OpenTool then "" else d.buffer
  {
    ClosedFront(clean, Started(d));
    hide Closed;
  }

  lemma ExtendedFront(clean: Cleaner, d: Doc, kind: BlockKind, delta: Delta)
    requires Sound(d) && !kind.ToolBlock?
    ensures var x := Extended(clean, d, kind, delta);
      && Sound(x) && FrontIn(x) == FrontOfKind(kind)
      && x.buffer == if FrontIn(d) == OpenTool then "" else d.buffer
  {
    BegunFront(clean, d, kind);
    hide Opened;
  }

  /** One event, on any document that has not ended. */
  lemma WaitingStep(clean: Cleaner, d: Doc, e: Upstream)
    requires Sound(d) && !Terminal(e)
    ensures var d' := After(clean, d, e);
      && Sound(d') && FrontIn(d') == NextFront(FrontIn(d), e)
      && d'.buffer == (if e.ToolDelta? then d.buffer + e.delta
                       else if FrontIn(d) == OpenTool && Closes(OpenTool, e) then "" else d.buffer)
  {
    hide Closed, Opened, Extended;
    match e {
      case ItemAdded(item) =>
        BegunFront(clean, d, ThinkingBlock);
        if item.FunctionCallItem? {
          BegunFront(clean, d, ToolBlock(FromCodexCallID(item.callID), item.name));
        }
      case TextDelta(t) => ExtendedFront(clean, d, TextBlock, TextPart(t));
      case ThinkingDelta(t) => ExtendedFront(clean, d, ThinkingBlock, ThinkingPart(t));
      case _ => ClosedFront(clean, d);
    }
  }

  /** What is waiting is a matter of the events alone, whatever they are and however input is cleaned. */
  lemma {:induction false} WaitingIsBuffer(clean: Cleaner, events: seq<Upstream>)
    requires Unending(events)
    ensures var d := RunFrom(clean, EMPTY_DOC, events);
      Sound(d) && FrontIn(d) == FrontOf(events) && d.buffer == Waiting(events)
  {
    if events != [] {
      var init, e := events[..|events| - 1], events[|events| - 1];
      WaitingIsBuffer(clean, init);
      var d := RunFrom(clean, EMPTY_DOC, init);
      assert !Terminal(e);
      WaitingStep(clean, d, e);
      assert events == init + [e];
      RunConcat(clean, EMPTY_DOC, init, [e]);
      RunOne(clean, d, e);
      hide After, RunFrom;
    }
  }

  /** Some tool input, not empty, came at `k`, and no tool block was closed after it. */
  ghost predicate LeftWaiting(events: seq<Upstream>, k: nat)
    requires k < |events|
  {
    && events[k].ToolDelta? && events[k].delta != ""
    && forall j | k < j < |events| :: !ClosesTool(events, j)
  }

  lemma ClosesToolBefore(events: seq<Upstream>, n: nat, j: nat)
    requires j < n <= |events|
    ensures ClosesTool(events[..n], j) <==> ClosesTool(events, j)
  {
    assert events[..n][..j] == events[..j];
  }

  lemma LeftWaitingBefore(events: seq<Upstream>, k: nat)
    requires k < |events| - 1
    ensures LeftWaiting(events, k) <==> LeftWaiting(events[..|events| - 1], k) && !ClosesTool(events, |events| - 1)
  {
    var n := |events| - 1;
    forall j | 0 <= j < n {
      ClosesToolBefore(events, n, j);
    }
    hide ClosesTool;
  }

  lemma NoDeltaCloses(events: seq<Upstream>, k: nat)
    requires k < |events| && events[k].ToolDelta?
    ensures !ClosesTool(events, k)
  {
  }

  /** Something is waiting exactly when tool input came after which no tool block was closed. */
  lemma {:induction false} WaitingExactly(events: seq<Upstream>)
    ensures Waiting(events) != "" <==> exists k | 0 <= k < |events| :: LeftWaiting(events, k)
  {
    if events != [] {
      var n := |events| - 1;
      var init := events[..n];
      WaitingExactly(init);
      forall k | 0 <= k < n {
        LeftWaitingBefore(events, k);
      }
      if events[n].ToolDelta? {
        NoDeltaCloses(events, n);
        assert Waiting(events) == Waiting(init) + events[n].delta;
      }
      assert LeftWaiting(events, n) <==> events[n].ToolDelta? && events[n].delta != "";
      hide ClosesTool, LeftWaiting, FrontOf;
      if k :| 0 <= k < |init| && LeftWaiting(init, k) {
        assert LeftWaiting(events, k) <==> !ClosesTool(events, n);
      }
      if k :| 0 <= k < |events| && LeftWaiting(events, k) {
        assert k < n ==> LeftWaiting(init, k) && !ClosesTool(events, n);
      }
    }
  }

  /** What a tool block hands over of its input. */
  function Handed(clean: Cleaner, input: string): seq<Delta> {
    if input == "" || clean(input) == "" then [] else [JsonPart(clean(input))]
  }

  /** The last block that the client is shown after these events and then a call. */
  function CallBlock(clean: Cleaner, events: seq<Upstream>, callID: string, name: string,
                     arguments: seq<string>): Block {
    var blocks := RunFrom(clean, EMPTY_DOC, events + ItemEvents(FunctionCall(callID, name, arguments))).blocks;
    if blocks == [] then Block(TextBlock, []) else blocks[|blocks| - 1]
  }

  /** What is waiting when a call's block opens: nothing, when opening it closes another tool block. */
  function WaitingForCall(events: seq<Upstream>): string {
    if FrontOf(events) == OpenTool then "" else Waiting(events)
  }

  lemma HandsOver(clean: Cleaner, d: Doc, kind: BlockKind)
    requires kind.ToolBlock? && d.open && d.blocks != [] && d.blocks[|d.blocks| - 1] == Block(kind, [])
    ensures var c := Closed(clean, d);
      c.blocks != [] && c.blocks[|c.blocks| - 1] == Block(kind, Handed(clean, d.buffer))
  {
    assert [] + [JsonPart(clean(d.buffer))] == [JsonPart(clean(d.buffer))];
  }

  /** A call after any events hands over what was waiting, followed by its own arguments. */
  lemma CallAfterEvents(clean: Cleaner, events: seq<Upstream>, callID: string, name: string, arguments: seq<string>)
    requires Unending(events)
    ensures CallBlock(clean, events, callID, name, arguments) ==
      Block(ToolBlock(FromCodexCallID(callID), name), Handed(clean, WaitingForCall(events) + Concat(arguments)))
  {
    hide ItemEvents, Waiting, FrontOf, Closed, Opened, Handed;
    WaitingIsBuffer(clean, events);
    var d := RunFrom(clean, EMPTY_DOC, events);
    RunConcat(clean, EMPTY_DOC, events, ItemEvents(FunctionCall(callID, name, arguments)));
    hide RunFrom;
    var kind := ToolBlock(FromCodexCallID(callID), name);
    CallOnAny(clean, d, callID, name, arguments);
    BegunFront(clean, d, kind);
    var begun := Opened(clean, d, kind);
    HandsOver(clean, begun.(buffer := begun.buffer + Concat(arguments)), kind);
  }

  /** The call hands over just its own arguments. */
  ghost predicate CarriesOwn(clean: Cleaner, events: seq<Upstream>, callID: string, name: string,
                             arguments: seq<string>) {
    CallBlock(clean, events, callID, name, arguments).deltas == Handed(clean, Concat(arguments))
  }

  /** A call carries its own arguments, however they are cleaned, exactly when no tool input was left waiting for it. */
  lemma OwnArgumentsExactly(events: seq<Upstream>, callID: string, name: string, arguments: seq<string>)
    requires Unending(events)
    ensures (forall clean: Cleaner :: CarriesOwn(clean, events, callID, name, arguments))
      <==> FrontOf(events) == OpenTool || !exists k | 0 <= k < |events| :: LeftWaiting(events, k)
  {
    WaitingExactly(events);
    var waiting, own := WaitingForCall(events), Concat(arguments);
    if waiting == "" {
      forall clean: Cleaner
        ensures CarriesOwn(clean, events, callID, name, arguments)
      {
        CallAfterEvents(clean, events, callID, name, arguments);
        assert "" + own == own;
      }
    } else {
      CallAfterEvents(AsIs, events, callID, name, arguments);
      assert |waiting + own| > |own|;
      assert !CarriesOwn(AsIs, events, callID, name, arguments);
    }
  }

  function AsIs(input: string): string {
    input
  }

  /** Tool input that comes before its block is opened: the block is closed over both pieces. */
  lemma StrayInputIsPrefixed(clean: Cleaner, callID: string, name: string)
    ensures var events := [Created, ToolDelta("x")];
      && Unending(events) && Waiting(events) == "x"
      && CallBlock(clean, events, callID, name, ["y"]).deltas == Handed(clean, "xy")
      && !CarriesOwn(AsIs, events, callID, name, ["y"])
  {
    var events := [Created, ToolDelta("x")];
    assert events[..1] == [Created] && [Created][..0] == [];
    assert Waiting([Created]) == Waiting([]) && FrontOf([Created]) == FrontOf([]);
    assert Waiting(events) == Waiting([Created]) + "x" == "x" && FrontOf(events) == FrontOf([Created]);
    assert Concat(["y"]) == "y" + Concat([]) == "y";
    CallAfterEvents(clean, events, callID, name, ["y"]);
    CallAfterEvents(AsIs, events, callID, name, ["y"]);
    assert "x" + "y" == "xy" && |"xy"| != |"y"|;
  }
}
