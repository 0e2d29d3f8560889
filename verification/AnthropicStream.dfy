/** Translation of upstream response events into a message stream of content blocks. A document is the
    list of blocks a stream describes; the translator's events are always the rendering of one. */
module AnthropicStream {

  datatype AddedItem = ReasoningItem | MessageItem | FunctionCallItem(callID: string, name: string) | OtherItem

  datatype Usage = Usage(input: int, output: int, cached: int)

  const NO_USAGE: Usage := Usage(0, 0, 0)

  /** How a completed response says it ended. */
  datatype Finish = Whole | CutAtMaxTokens | CutOtherwise

  datatype OptionalUsage = NoUsage | Reported(usage: Usage)

  datatype Upstream =
    | Created
    | ItemAdded(item: AddedItem)
    | TextDelta(delta: string)
    | ThinkingDelta(delta: string)
    | ToolDelta(delta: string)
    | ContentDone
    | ItemDone
    | Completed(finish: Finish, usage: OptionalUsage)
    | Failed
    | OtherEvent

  datatype StopReason = EndTurn | MaxTokens | ToolUse

  datatype BlockKind = TextBlock | ThinkingBlock | ToolBlock(id: string, name: string)

  datatype Delta = TextPart(text: string) | ThinkingPart(text: string) | JsonPart(text: string)

  datatype Downstream =
    | MessageStart
    | BlockStart(index: int, kind: BlockKind)
    | BlockDelta(index: int, delta: Delta)
    | BlockStop(index: int)
    | MessageDelta(stop: StopReason, usage: Usage)
    | MessageStop

  type Cleaner = string -> string

  predicate HasPrefix(s: string, p: string) {
    p <= s
  }

  // ---------------------------------------------------------------- call ids

  function ToCodexCallID(id: string): string {
    if HasPrefix(id, "fc_") then id else "fc_" + id
  }

  function FromCodexCallID(id: string): string {
    if HasPrefix(id, "fc_") && (HasPrefix(id[3..], "toolu_") || HasPrefix(id[3..], "call_")) then id[3..] else id
  }

  predicate ClientStyle(id: string) {
    HasPrefix(id, "toolu_") || HasPrefix(id, "call_")
  }

  /** An id sent upstream and back is unchanged exactly when it is client-style, or carries the
      upstream prefix in front of something that is not. */
  lemma CallIDThereAndBack(id: string)
    ensures FromCodexCallID(ToCodexCallID(id)) == id
      <==> if HasPrefix(id, "fc_") then !ClientStyle(id[3..]) else ClientStyle(id)
  {
    if !HasPrefix(id, "fc_") {
      assert ("fc_" + id)[3..] == id;
    }
  }

  /** An upstream id handed to the client and back is unchanged exactly when it has the upstream prefix. */
  lemma CallIDBackAndThere(id: string)
    ensures ToCodexCallID(FromCodexCallID(id)) == id <==> HasPrefix(id, "fc_")
  {
    if HasPrefix(id, "fc_") {
      assert id == id[..3] + id[3..];
      assert id[..3] == "fc_";
      if ClientStyle(id[3..]) {
        assert id[3..][0] == 't' || id[3..][0] == 'c';
        assert "fc_"[0] == 'f';
      }
    } else {
      assert |"fc_" + id| == |id| + 3;
    }
  }

  // ---------------------------------------------------------------- documents

  datatype Block = Block(kind: BlockKind, deltas: seq<Delta>)

  datatype Ended = Running | Ended(stop: StopReason, usage: Usage)

  /** What a stream has said so far; while `open`, its last block may still grow. */
  datatype Doc = Doc(started: bool, blocks: seq<Block>, open: bool, buffer: string, ended: Ended)

  const EMPTY_DOC: Doc := Doc(false, [], false, "", Running)

  predicate Fits(kind: BlockKind, d: Delta) {
    match kind
    case TextBlock => d.TextPart?
    case ThinkingBlock => d.ThinkingPart?
    case ToolBlock(_, _) => d.JsonPart?
  }

  /** Deltas fit their block and are never empty; a tool block gets its input in at most one. */
  ghost predicate BlockOk(b: Block) {
    && (forall i | 0 <= i < |b.deltas| :: Fits(b.kind, b.deltas[i]) && b.deltas[i].text != "")
    && (b.kind.ToolBlock? ==> |b.deltas| <= 1)
  }

  ghost predicate DocOk(d: Doc) {
    && (!d.started ==> d.blocks == [] && d.ended == Running)
    && (d.open ==> d.blocks != [])
    && (d.open && d.blocks[|d.blocks| - 1].kind.ToolBlock? ==> d.blocks[|d.blocks| - 1].deltas == [])
    && (d.ended != Running ==> !d.open)
    && forall i | 0 <= i < |d.blocks| :: BlockOk(d.blocks[i])
  }

  function RenderDeltas(index: int, deltas: seq<Delta>): seq<Downstream> {
    seq(|deltas|, i requires 0 <= i < |deltas| => BlockDelta(index, deltas[i]))
  }

  /** start(i) delta(i)* stop(i), the stop missing while the block is open. */
  function RenderBlock(index: int, b: Block, open: bool): seq<Downstream> {
    [BlockStart(index, b.kind)] + RenderDeltas(index, b.deltas) + if open then [] else [BlockStop(index)]
  }

  /** All blocks numbered from 0, each closed before the next begins. */
  function RenderBlocks(blocks: seq<Block>, open: bool): seq<Downstream> {
    if blocks == [] then []
    else RenderBlocks(blocks[..|blocks| - 1], false) + RenderBlock(|blocks| - 1, blocks[|blocks| - 1], open)
  }

  function Render(d: Doc): seq<Downstream> {
    (if d.started then [MessageStart] else [])
    + RenderBlocks(d.blocks, d.open)
    + (if d.ended == Running then [] else [MessageDelta(d.ended.stop, d.ended.usage), MessageStop])
  }

  // ---------------------------------------------------------------- how events change the document

  function Started(d: Doc): Doc {
    d.(started := true)
  }

  function LastKindIs(d: Doc, tool: bool): bool {
    d.open && d.blocks != [] && d.blocks[|d.blocks| - 1].kind.ToolBlock? == tool
  }

  function WithDelta(d: Doc, delta: Delta): Doc
    requires d.blocks != []
  {
    var n := |d.blocks| - 1;
    d.(blocks := d.blocks[n := Block(d.blocks[n].kind, d.blocks[n].deltas + [delta])])
  }

  /** Closing a tool block first hands over its cleaned input, if there is any. */
  function Closed(clean: Cleaner, d: Doc): Doc {
    if !d.open then d
    else if !LastKindIs(d, true) || d.buffer == "" then d.(open := false)
    else if clean(d.buffer) == "" then d.(open := false, buffer := "")
    else WithDelta(d, JsonPart(clean(d.buffer))).(open := false, buffer := "")
  }

  function Opened(clean: Cleaner, d: Doc, kind: BlockKind): Doc {
    var c := Closed(clean, Started(d));
    c.(blocks := c.blocks + [Block(kind, [])], open := true)
  }

  /** A text or thinking delta: into the open block if it is of that kind, else into a new one. */
  function Extended(clean: Cleaner, d: Doc, kind: BlockKind, delta: Delta): Doc {
    if d.open && d.blocks != [] && d.blocks[|d.blocks| - 1].kind == kind then WithDelta(Started(d), delta)
    else WithDelta(Opened(clean, d, kind), delta)
  }

  predicate HasTool(blocks: seq<Block>) {
    exists i | 0 <= i < |blocks| :: blocks[i].kind.ToolBlock?
  }

  function StopFor(finish: Finish, hasTool: bool): StopReason {
    if finish == CutAtMaxTokens then MaxTokens else if hasTool then ToolUse else EndTurn
  }

  function After(clean: Cleaner, d: Doc, e: Upstream): Doc {
    match e
    case Created => Started(d)
    case ItemAdded(item) =>
      (match item
       case ReasoningItem => Opened(clean, d, ThinkingBlock)
       case FunctionCallItem(callID, name) => Opened(clean, d, ToolBlock(FromCodexCallID(callID), name))
       case _ => Started(d))
    case TextDelta(t) => if t == "" then d else Extended(clean, d, TextBlock, TextPart(t))
    case ThinkingDelta(t) => if t == "" then d else Extended(clean, d, ThinkingBlock, ThinkingPart(t))
    case ToolDelta(t) => d.(buffer := d.buffer + t)
    case ContentDone => Closed(clean, d)
    case ItemDone => Closed(clean, d)
    case Completed(finish, usage) =>
      var c := Closed(clean, Started(d));
      c.(ended := Ended(StopFor(finish, HasTool(c.blocks)), if usage.Reported? then usage.usage else NO_USAGE))
    case Failed => Closed(clean, Started(d)).(ended := Ended(EndTurn, NO_USAGE))
    case OtherEvent => d
  }

  predicate Terminal(e: Upstream) {
    e.Completed? || e.Failed?
  }

  /** The document after every event up to the first terminal one. */
  function RunFrom(clean: Cleaner, d: Doc, events: seq<Upstream>): Doc
    decreases |events|
  {
    if events == [] || d.ended != Running then d else RunFrom(clean, After(clean, d, events[0]), events[1..])
  }

  /** The stream's end when no terminal event came. */
  function Finalized(clean: Cleaner, d: Doc): Doc {
    if d.ended != Running then d else Closed(clean, Started(d)).(ended := Ended(EndTurn, NO_USAGE))
  }

  function Document(clean: Cleaner, events: seq<Upstream>): Doc {
    Finalized(clean, RunFrom(clean, EMPTY_DOC, events))
  }

  lemma ClosedOk(clean: Cleaner, d: Doc)
    requires DocOk(d)
    ensures DocOk(Closed(clean, d)) && !Closed(clean, d).open
    ensures |Closed(clean, d).blocks| == |d.blocks|
  {
    if LastKindIs(d, true) && d.buffer != "" && clean(d.buffer) != "" {
      var n := |d.blocks| - 1;
      assert BlockOk(Block(d.blocks[n].kind, [] + [JsonPart(clean(d.buffer))]));
    }
  }

  lemma OpenedOk(clean: Cleaner, d: Doc, kind: BlockKind)
    requires DocOk(d) && d.ended == Running
    ensures DocOk(Opened(clean, d, kind))
  {
    ClosedOk(clean, Started(d));
    assert BlockOk(Block(kind, []));
  }

  lemma ExtendedOk(clean: Cleaner, d: Doc, kind: BlockKind, delta: Delta)
    requires DocOk(d) && d.ended == Running && !kind.ToolBlock? && Fits(kind, delta) && delta.text != ""
    ensures DocOk(Extended(clean, d, kind, delta))
  {
    OpenedOk(clean, d, kind);
    var base := if d.open && d.blocks != [] && d.blocks[|d.blocks| - 1].kind == kind then Started(d)
      else Opened(clean, d, kind);
    var n := |base.blocks| - 1;
    assert BlockOk(base.blocks[n]);
    assert BlockOk(Block(kind, base.blocks[n].deltas + [delta]));
  }

  /** Every event, on any document, keeps it well formed. */
  lemma AfterOk(clean: Cleaner, d: Doc, e: Upstream)
    requires DocOk(d) && d.ended == Running
    ensures DocOk(After(clean, d, e))
  {
    match e {
      case ItemAdded(item) =>
        OpenedOk(clean, d, ThinkingBlock);
        if item.FunctionCallItem? {
          OpenedOk(clean, d, ToolBlock(FromCodexCallID(item.callID), item.name));
        }
      case TextDelta(t) =>
        if t != "" {
          ExtendedOk(clean, d, TextBlock, TextPart(t));
        }
      case ThinkingDelta(t) =>
        if t != "" {
          ExtendedOk(clean, d, ThinkingBlock, ThinkingPart(t));
        }
      case _ =>
        ClosedOk(clean, d);
        ClosedOk(clean, Started(d));
    }
  }

  lemma {:induction false} RunOk(clean: Cleaner, d: Doc, events: seq<Upstream>)
    requires DocOk(d)
    ensures DocOk(RunFrom(clean, d, events))
    decreases |events|
  {
    if events != [] && d.ended == Running {
      AfterOk(clean, d, events[0]);
      RunOk(clean, After(clean, d, events[0]), events[1..]);
    }
  }

  /** Whatever the upstream sends, even out of order or cut short, the client gets one message_start, then
      blocks 0, 1, 2, … each closed before the next and filled with deltas of its kind, then one
      message_delta and one message_stop. */
  lemma StreamWellBracketed(clean: Cleaner, events: seq<Upstream>)
    ensures var d := Document(clean, events);
            && Render(d) == [MessageStart] + RenderBlocks(d.blocks, false) + [MessageDelta(d.ended.stop, d.ended.usage),
                                                                              MessageStop]
            && forall i | 0 <= i < |d.blocks| :: BlockOk(d.blocks[i])
  {
    RunOk(clean, EMPTY_DOC, events);
    var r := RunFrom(clean, EMPTY_DOC, events);
    ClosedOk(clean, Started(r));
  }

  // ---------------------------------------------------------------- nothing lost: the text

  function TextOf(deltas: seq<Delta>): string {
    if deltas == [] then "" else TextOf(deltas[..|deltas| - 1]) + deltas[|deltas| - 1].text
  }

  /** The text the client is shown: the text blocks' deltas in order. */
  function ShownText(blocks: seq<Block>): string {
    if blocks == [] then ""
    else
      var b := blocks[|blocks| - 1];
      ShownText(blocks[..|blocks| - 1]) + (if b.kind == TextBlock then TextOf(b.deltas) else "")
  }

  /** The text the upstream sent before its first terminal event. */
  function SentText(events: seq<Upstream>): string {
    if events == [] || Terminal(events[0]) then ""
    else (if events[0].TextDelta? then events[0].delta else "") + SentText(events[1..])
  }

  lemma ShownAfterDelta(d: Doc, delta: Delta)
    requires d.blocks != []
    ensures ShownText(WithDelta(d, delta).blocks) ==
      ShownText(d.blocks) + (if d.blocks[|d.blocks| - 1].kind == TextBlock then delta.text else "")
  {
    var n := |d.blocks| - 1;
    var b := d.blocks[n];
    assert WithDelta(d, delta).blocks[..n] == d.blocks[..n];
    assert (b.deltas + [delta])[..|b.deltas|] == b.deltas;
    if b.kind == TextBlock {
      assert ShownText(d.blocks[..n]) + (TextOf(b.deltas) + delta.text) == ShownText(d.blocks) + delta.text;
    }
  }

  lemma ShownAfterClose(clean: Cleaner, d: Doc)
    ensures ShownText(Closed(clean, d).blocks) == ShownText(d.blocks)
  {
    if LastKindIs(d, true) && d.buffer != "" && clean(d.buffer) != "" {
      ShownAfterDelta(d, JsonPart(clean(d.buffer)));
    }
  }

  lemma ShownAfterOpen(clean: Cleaner, d: Doc, kind: BlockKind)
    ensures ShownText(Opened(clean, d, kind).blocks) == ShownText(d.blocks)
  {
    ShownAfterClose(clean, Started(d));
    var c := Closed(clean, Started(d));
    assert (c.blocks + [Block(kind, [])])[..|c.blocks|] == c.blocks;
  }

  lemma ShownAfterExtend(clean: Cleaner, d: Doc, kind: BlockKind, delta: Delta)
    ensures ShownText(Extended(clean, d, kind, delta).blocks) ==
      ShownText(d.blocks) + (if kind == TextBlock then delta.text else "")
  {
    hide ShownText, Closed;
    ShownAfterOpen(clean, d, kind);
    ShownAfterDelta(Opened(clean, d, kind), delta);
    if d.blocks != [] {
      ShownAfterDelta(Started(d), delta);
    }
  }

  lemma ShownAfterEvent(clean: Cleaner, d: Doc, e: Upstream)
    ensures ShownText(After(clean, d, e).blocks) ==
      ShownText(d.blocks) + (if e.TextDelta? then e.delta else "")
  {
    hide ShownText, Extended, Opened, Closed, HasTool;
    match e {
      case TextDelta(t) =>
        ShownAfterExtend(clean, d, TextBlock, TextPart(t));
      case ThinkingDelta(t) =>
        ShownAfterExtend(clean, d, ThinkingBlock, ThinkingPart(t));
      case ItemAdded(item) =>
        ShownAfterOpen(clean, d, ThinkingBlock);
        if item.FunctionCallItem? {
          ShownAfterOpen(clean, d, ToolBlock(FromCodexCallID(item.callID), item.name));
        }
      case _ =>
        ShownAfterClose(clean, d);
        ShownAfterClose(clean, Started(d));
    }
  }

  lemma {:induction false} ShownAfterRun(clean: Cleaner, d: Doc, events: seq<Upstream>)
    requires d.ended == Running
    ensures ShownText(RunFrom(clean, d, events).blocks) == ShownText(d.blocks) + SentText(events)
    decreases |events|
  {
    if events != [] {
      ShownAfterEvent(clean, d, events[0]);
      var d' := After(clean, d, events[0]);
      if Terminal(events[0]) {
        assert d'.ended != Running;
      } else {
        EndedByTerminal(clean, d, events[0]);
        ShownAfterRun(clean, d', events[1..]);
      }
    }
  }

  lemma EndedByTerminal(clean: Cleaner, d: Doc, e: Upstream)
    requires d.ended == Running
    ensures After(clean, d, e).ended != Running <==> Terminal(e)
  {
  }

  /** The text deltas concatenate to exactly the text the upstream sent before its terminal event. */
  lemma TextIsPreserved(clean: Cleaner, events: seq<Upstream>)
    ensures ShownText(Document(clean, events).blocks) == SentText(events)
  {
    ShownAfterRun(clean, EMPTY_DOC, events);
    ShownAfterClose(clean, Started(RunFrom(clean, EMPTY_DOC, events)));
  }
}
