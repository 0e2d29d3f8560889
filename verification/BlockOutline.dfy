/** The message a client is sent, told from the upstream events alone: which events open a block, what each block
    holds, how the message ends, and that a client who reads the frames strictly gets exactly that. */
module BlockOutline {
  import opened AnthropicBatch
  import opened AnthropicStream
  import opened StrayInput
  import opened Wrappers

  // ---------------------------------------------------------------- the outline

  /** What an event says of the block that is open after it; most say nothing. */
  function Mark(e: Upstream): Option<Front> {
    match e
    case ItemAdded(ReasoningItem) => Some(OpenThinking)
    case ItemAdded(FunctionCallItem(_, _)) => Some(OpenTool)
    case TextDelta(t) => if t == "" then None else Some(OpenText)
    case ThinkingDelta(t) => if t == "" then None else Some(OpenThinking)
    case ContentDone => Some(NoBlock)
    case ItemDone => Some(NoBlock)
    case _ => None
  }

  /** The block that is open after these events is the one the last of them with something to say names. */
  function LastMark(events: seq<Upstream>): Front {
    if events == [] then NoBlock
    else
      var last := Mark(events[|events| - 1]);
      if last.Some? then last.value else LastMark(events[..|events| - 1])
  }

  /** The event opens a block: an item for reasoning or a call always, some text or thinking when the open block is
      not of its kind. */
  predicate OpensOn(front: Front, e: Upstream) {
    match e
    case ItemAdded(item) => item == ReasoningItem || item.FunctionCallItem?
    case TextDelta(t) => t != "" && front != OpenText
    case ThinkingDelta(t) => t != "" && front != OpenThinking
    case _ => false
  }

  /** The events that open a block, in order. */
  function Openings(events: seq<Upstream>): (r: seq<nat>)
    ensures forall i | 0 <= i < |r| :: r[i] < |events|
    ensures forall i, j | 0 <= i < j < |r| :: r[i] < r[j]
  {
    if events == [] then []
    else
      var n := |events| - 1;
      Openings(events[..n]) + if OpensOn(LastMark(events[..n]), events[n]) then [n] else []
  }

  /** The piece of text or thinking an event brings, if any. */
  function PieceOf(e: Upstream): seq<Delta> {
    match e
    case TextDelta(t) => if t == "" then [] else [TextPart(t)]
    case ThinkingDelta(t) => if t == "" then [] else [ThinkingPart(t)]
    case _ => []
  }

  function PiecesIn(events: seq<Upstream>): seq<Delta> {
    if events == [] then [] else PiecesIn(events[..|events| - 1]) + PieceOf(events[|events| - 1])
  }

  /** The first event from `k` on that says which block is open, or the end. */
  function NextMark(events: seq<Upstream>, k: nat): (r: nat)
    requires k <= |events|
    ensures k <= r <= |events| && forall j | k <= j < r :: Mark(events[j]) == None
    ensures r < |events| ==> Mark(events[r]).Some?
    decreases |events| - k
  {
    if k == |events| || Mark(events[k]).Some? then k else NextMark(events, k + 1)
  }

  /** The block opened by event `from`, when the next one is opened at `to`: the pieces that came between, one by
      one, or for a call the input waiting when it was closed. */
  function Told(clean: Cleaner, events: seq<Upstream>, from: nat, to: nat, over: bool): Block
    requires from < to <= |events|
  {
    match events[from]
    case ItemAdded(FunctionCallItem(callID, name)) =>
      var close := NextMark(events, from + 1);
      Block(ToolBlock(FromCodexCallID(callID), name),
            if close == |events| && !over then [] else Handed(clean, Waiting(events[..close])))
    case TextDelta(_) => Block(TextBlock, PiecesIn(events[from..to]))
    case _ => Block(ThinkingBlock, PiecesIn(events[from..to]))
  }

  /** Where the block after the `i`th is opened. */
  function NextOpening(events: seq<Upstream>, i: nat): (to: nat)
    requires i < |Openings(events)|
    ensures Openings(events)[i] < to <= |events|
  {
    if i + 1 < |Openings(events)| then Openings(events)[i + 1] else |events|
  }

  /** One block for each event that opens one. */
  function Outline(clean: Cleaner, events: seq<Upstream>, over: bool): (r: seq<Block>)
    ensures |r| == |Openings(events)|
  {
    seq(|Openings(events)|, i requires 0 <= i < |Openings(events)| =>
      Told(clean, events, Openings(events)[i], NextOpening(events, i), over))
  }

  /** The events before the first one that ends the message. */
  function Heard(events: seq<Upstream>): (r: seq<Upstream>)
    ensures Unending(r) && r <= events && (|r| < |events| ==> Terminal(events[|r|]))
  {
    if events == [] || Terminal(events[0]) then [] else [events[0]] + Heard(events[1..])
  }

  // ---------------------------------------------------------------- which block is open

  lemma {:induction false} FrontIsLastMark(events: seq<Upstream>)
    requires Unending(events)
    ensures FrontOf(events) == LastMark(events)
  {
    if events != [] {
      var n := |events| - 1;
      assert !Terminal(events[n]);
      FrontIsLastMark(events[..n]);
    }
  }

  lemma NextMarkGrows(events: seq<Upstream>, k: nat)
    requires events != [] && k <= |events| - 1
    ensures var n := |events| - 1;
      var c := NextMark(events[..n], k);
      NextMark(events, k) == if c < n then c else if Mark(events[n]).Some? then n else n + 1
  {
    hide Mark;
    var n := |events| - 1;
    assert forall j | 0 <= j < n :: events[..n][j] == events[j];
  }

  lemma OpeningsGrow(events: seq<Upstream>)
    requires events != []
    ensures var n := |events| - 1;
      Openings(events) ==
        Openings(events[..n]) + if OpensOn(LastMark(events[..n]), events[n]) then [n] else []
  {
  }

  /** Every event that opens a block is listed, and no other. */
  lemma {:induction false} OpeningsExactly(events: seq<Upstream>, k: nat)
    requires k < |events|
    ensures k in Openings(events) <==> OpensOn(LastMark(events[..k]), events[k])
  {
    var n := |events| - 1;
    OpeningsGrow(events);
    if k < n {
      OpeningsExactly(events[..n], k);
      assert events[..n][..k] == events[..k];
    }
  }

  /** The block opened at `k` is a call's, and nothing since said which block is open. */
  predicate CallStillOpen(events: seq<Upstream>, k: nat)
    requires k < |events|
  {
    Mark(events[k]) == Some(OpenTool) && NextMark(events, k + 1) == |events|
  }

  lemma StillOpenStep(events: seq<Upstream>, k: nat)
    requires k < |events| - 1
    requires var init := events[..|events| - 1];
      && !OpensOn(LastMark(init), events[|events| - 1])
      && (LastMark(init) == OpenTool <==> CallStillOpen(init, k))
    ensures LastMark(events) == OpenTool <==> CallStillOpen(events, k)
  {
    NextMarkGrows(events, k + 1);
    hide NextMark;
    assert events[..|events| - 1][k] == events[k];
  }

  lemma JustOpened(events: seq<Upstream>)
    requires events != [] && OpensOn(LastMark(events[..|events| - 1]), events[|events| - 1])
    ensures LastMark(events) == OpenTool <==> CallStillOpen(events, |events| - 1)
  {
  }

  lemma NothingOpened(events: seq<Upstream>)
    requires events != [] && !OpensOn(LastMark(events[..|events| - 1]), events[|events| - 1])
    requires LastMark(events[..|events| - 1]) == NoBlock
    ensures LastMark(events) == NoBlock
  {
  }

  /** The last block opened is a call's and still open exactly when a call's block is open. */
  lemma {:induction false} ToolOpenExactly(events: seq<Upstream>)
    ensures Openings(events) == [] ==> LastMark(events) == NoBlock
    ensures Openings(events) != [] ==>
      (LastMark(events) == OpenTool <==> CallStillOpen(events, Openings(events)[|Openings(events)| - 1]))
  {
    if events != [] {
      var init := events[..|events| - 1];
      ToolOpenExactly(init);
      OpeningsGrow(events);
      var opens := OpensOn(LastMark(init), events[|events| - 1]);
      hide OpensOn, LastMark, CallStillOpen, Openings;
      if opens {
        JustOpened(events);
      } else if Openings(init) == [] {
        NothingOpened(events);
      } else {
        StillOpenStep(events, Openings(init)[|Openings(init)| - 1]);
      }
    }
  }

  /** Whatever block is open is of the kind of the last one opened. */
  lemma {:induction false} OpenIsLastOpened(events: seq<Upstream>)
    ensures LastMark(events) != NoBlock ==>
      Openings(events) != [] && Mark(events[Openings(events)[|Openings(events)| - 1]]) == Some(LastMark(events))
  {
    if events != [] {
      OpenIsLastOpened(events[..|events| - 1]);
      OpeningsGrow(events);
      hide Openings;
    }
  }

  // ---------------------------------------------------------------- one event on a document

  /** The last block with these deltas instead. */
  function WithLast(blocks: seq<Block>, deltas: seq<Delta>): (r: seq<Block>)
    ensures |r| == |blocks|
  {
    if blocks == [] then blocks
    else blocks[|blocks| - 1 := Block(blocks[|blocks| - 1].kind, deltas)]
  }

  function LastDeltas(blocks: seq<Block>): seq<Delta> {
    if blocks == [] then [] else blocks[|blocks| - 1].deltas
  }

  /** The block an event opens. */
  function BlockOf(e: Upstream): Block {
    match e
    case ItemAdded(FunctionCallItem(callID, name)) => Block(ToolBlock(FromCodexCallID(callID), name), [])
    case TextDelta(_) => Block(TextBlock, PieceOf(e))
    case _ => Block(ThinkingBlock, PieceOf(e))
  }

  /** What one event makes of the blocks so far, with `front` open and `waiting` to be handed over. */
  function NextBlocks(clean: Cleaner, blocks: seq<Block>, front: Front, waiting: string, e: Upstream): seq<Block> {
    var settled := if front == OpenTool && Mark(e).Some? then WithLast(blocks, Handed(clean, waiting)) else blocks;
    if OpensOn(front, e) then settled + [BlockOf(e)]
    else WithLast(settled, LastDeltas(settled) + PieceOf(e))
  }

  lemma ClosedBlocks(clean: Cleaner, d: Doc)
    requires DocOk(d) && Sound(d)
    ensures Closed(clean, d).blocks ==
      if FrontIn(d) == OpenTool then WithLast(d.blocks, Handed(clean, d.buffer)) else d.blocks
  {
    if FrontIn(d) == OpenTool {
      var n := |d.blocks| - 1;
      assert [] + [JsonPart(clean(d.buffer))] == [JsonPart(clean(d.buffer))];
      assert d.blocks[n := Block(d.blocks[n].kind, [])] == d.blocks;
    }
  }

  lemma OpenedBlocks(clean: Cleaner, d: Doc, kind: BlockKind)
    requires DocOk(d) && Sound(d)
    ensures Opened(clean, d, kind).blocks ==
      (if FrontIn(d) == OpenTool then WithLast(d.blocks, Handed(clean, d.buffer)) else d.blocks) + [Block(kind, [])]
  {
    ClosedBlocks(clean, Started(d));
    hide Closed, WithLast;
  }

  lemma ExtendedBlocks(clean: Cleaner, d: Doc, kind: BlockKind, delta: Delta)
    requires DocOk(d) && Sound(d) && !kind.ToolBlock?
    ensures Extended(clean, d, kind, delta).blocks ==
      if FrontIn(d) == FrontOfKind(kind) then WithLast(d.blocks, LastDeltas(d.blocks) + [delta])
      else
        (if FrontIn(d) == OpenTool then WithLast(d.blocks, Handed(clean, d.buffer)) else d.blocks)
        + [Block(kind, [delta])]
  {
    OpenedBlocks(clean, d, kind);
    var o := Opened(clean, d, kind);
    hide Opened, Handed;
    assert [] + [delta] == [delta];
  }

  lemma SameLast(blocks: seq<Block>)
    ensures WithLast(blocks, LastDeltas(blocks) + []) == blocks
  {
    assert LastDeltas(blocks) + [] == LastDeltas(blocks);
  }

  lemma EventBlocks(clean: Cleaner, d: Doc, e: Upstream)
    requires DocOk(d) && Sound(d) && !Terminal(e)
    ensures After(clean, d, e).blocks == NextBlocks(clean, d.blocks, FrontIn(d), d.buffer, e)
  {
    hide Closed, Opened, Extended, Handed;
    SameLast(d.blocks);
    SameLast(WithLast(d.blocks, Handed(clean, d.buffer)));
    hide WithLast, LastDeltas;
    match e {
      case ItemAdded(item) =>
        OpenedBlocks(clean, d, ThinkingBlock);
        if item.FunctionCallItem? {
          OpenedBlocks(clean, d, ToolBlock(FromCodexCallID(item.callID), item.name));
        }
      case TextDelta(t) => ExtendedBlocks(clean, d, TextBlock, TextPart(t));
      case ThinkingDelta(t) => ExtendedBlocks(clean, d, ThinkingBlock, ThinkingPart(t));
      case _ => ClosedBlocks(clean, d);
    }
  }

  // ---------------------------------------------------------------- one event more in an outline

  /** A block that was followed by another stays as it was. */
  lemma ToldEarlier(clean: Cleaner, events: seq<Upstream>, from: nat, to: nat)
    requires from < to < |events| - 1 && Mark(events[to]).Some?
    ensures var n := |events| - 1;
      Told(clean, events, from, to, false) == Told(clean, events[..n], from, to, false)
  {
    var n := |events| - 1;
    var init := events[..n];
    NextMarkGrows(events, from + 1);
    hide NextMark, Handed;
    assert init[to] == events[to] && init[from] == events[from];
    var close := NextMark(init, from + 1);
    assert init[..close] == events[..close];
    assert init[from..to] == events[from..to];
  }

  /** A call's block that is opened last is closed by an event that says what is open. */
  lemma ToldLastCall(clean: Cleaner, events: seq<Upstream>, from: nat, to: nat)
    requires from < |events| - 1 && |events| - 1 <= to <= |events| && Mark(events[from]) == Some(OpenTool)
    ensures var n := |events| - 1;
      var was := Told(clean, events[..n], from, n, false);
      && was.kind.ToolBlock?
      && Told(clean, events, from, to, false) ==
         if CallStillOpen(events[..n], from) && Mark(events[n]).Some?
         then Block(was.kind, Handed(clean, Waiting(events[..n]))) else was
  {
    var n := |events| - 1;
    var init := events[..n];
    NextMarkGrows(events, from + 1);
    hide NextMark, Handed, Waiting;
    assert init[from] == events[from];
    var close := NextMark(init, from + 1);
    assert init[..close] == events[..close] && events[..n] == init;
  }

  /** Any other block that is opened last takes the piece of one more event. */
  lemma ToldLastOther(clean: Cleaner, events: seq<Upstream>, from: nat, to: nat)
    requires from < |events| - 1 && |events| - 1 <= to <= |events| && Mark(events[from]) != Some(OpenTool)
    ensures var n := |events| - 1;
      var was := Told(clean, events[..n], from, n, false);
      && !was.kind.ToolBlock?
      && Told(clean, events, from, to, false) ==
         if to == n then was else Block(was.kind, was.deltas + PieceOf(events[n]))
  {
    var n := |events| - 1;
    hide NextMark, Handed, Waiting;
    assert events[..n][from] == events[from];
    assert events[..n][from..n] == events[from..n];
    assert events[from..n + 1][..n - from] == events[from..n];
  }

  lemma OpeningsMark(events: seq<Upstream>, i: nat)
    requires i < |Openings(events)|
    ensures Mark(events[Openings(events)[i]]).Some?
  {
    if events != [] {
      var n := |events| - 1;
      OpeningsGrow(events);
      var o := Openings(events[..n]);
      if i < |o| {
        OpeningsMark(events[..n], i);
        assert events[..n][o[i]] == events[o[i]];
      }
    }
  }

  lemma ToldOpened(clean: Cleaner, events: seq<Upstream>, front: Front)
    requires events != [] && OpensOn(front, events[|events| - 1])
    ensures Told(clean, events, |events| - 1, |events|, false) == BlockOf(events[|events| - 1])
  {
    hide Waiting, Handed;
    var n := |events| - 1;
    var one := events[n..|events|];
    assert one == [events[n]] && one[..0] == [];
    assert PiecesIn(one[..0]) == [];
    assert PiecesIn(one) == PiecesIn(one[..0]) + PieceOf(one[0]);
    assert [] + PieceOf(events[n]) == PieceOf(events[n]);
  }

  lemma OutlineOpened(clean: Cleaner, events: seq<Upstream>)
    requires events != [] && OpensOn(LastMark(events[..|events| - 1]), events[|events| - 1])
    ensures Openings(events) != []
    ensures Outline(clean, events, false)[|Openings(events)| - 1] == BlockOf(events[|events| - 1])
  {
    hide Told, BlockOf, OpensOn, LastMark;
    OpeningsGrow(events);
    ToldOpened(clean, events, LastMark(events[..|events| - 1]));
    hide Openings;
  }

  lemma NextBlocksAt(clean: Cleaner, blocks: seq<Block>, front: Front, waiting: string, e: Upstream)
    ensures var next := NextBlocks(clean, blocks, front, waiting, e);
      && |next| == |blocks| + (if OpensOn(front, e) then 1 else 0)
      && (forall i | 0 <= i < |blocks| - 1 :: next[i] == blocks[i])
      && (OpensOn(front, e) ==> next[|blocks|] == BlockOf(e))
      && (blocks != [] ==>
            var b := blocks[|blocks| - 1];
            var settled := if front == OpenTool && Mark(e).Some? then Handed(clean, waiting) else b.deltas;
            next[|blocks| - 1] == Block(b.kind, if OpensOn(front, e) then settled else settled + PieceOf(e)))
  {
    hide OpensOn, Mark, Handed, PieceOf, BlockOf;
  }

  lemma OutlineFront(clean: Cleaner, events: seq<Upstream>, i: nat)
    requires events != [] && i + 1 < |Openings(events[..|events| - 1])|
    ensures Outline(clean, events, false)[i] == Outline(clean, events[..|events| - 1], false)[i]
  {
    var n := |events| - 1;
    var o := Openings(events[..n]);
    OpeningsGrow(events);
    OpeningsMark(events[..n], i + 1);
    hide Openings, Told;
    assert events[..n][o[i + 1]] == events[o[i + 1]];
    ToldEarlier(clean, events, o[i], o[i + 1]);
  }

  /** A piece that opens no block finds one of its kind open, so the last block opened is not a call's. */
  lemma PieceNeedsFront(front: Front, e: Upstream)
    requires front in {NoBlock, OpenTool} && !OpensOn(front, e)
    ensures PieceOf(e) == []
  {
  }

  lemma OutlineLast(clean: Cleaner, events: seq<Upstream>)
    requires events != [] && Openings(events[..|events| - 1]) != []
    ensures var n := |events| - 1;
      var init, e := events[..n], events[n];
      var k, front := |Openings(init)| - 1, LastMark(init);
      var was := Outline(clean, init, false)[k];
      var settled := if front == OpenTool && Mark(e).Some? then Handed(clean, Waiting(init)) else was.deltas;
      Outline(clean, events, false)[k] ==
        Block(was.kind, if OpensOn(front, e) then settled else settled + PieceOf(e))
  {
    hide Openings, LastMark, Waiting, Handed, NextMark, Told, CallStillOpen, OpensOn, PieceOf, Mark;
    var n := |events| - 1;
    var init, e := events[..n], events[n];
    var k := |Openings(init)| - 1;
    var from := Openings(init)[k];
    var front := LastMark(init);
    OpeningsGrow(events);
    var to := NextOpening(events, k);
    ToolOpenExactly(init);
    OpenIsLastOpened(init);
    assert init[from] == events[from] && to == if OpensOn(front, e) then n else n + 1;
    var was := Told(clean, init, from, n, false);
    if Mark(events[from]) == Some(OpenTool) {
      ToldLastCall(clean, events, from, to);
      if !OpensOn(front, e) {
        PieceNeedsFront(front, e);
      }
    } else {
      ToldLastOther(clean, events, from, to);
      assert was.deltas + [] == was.deltas;
    }
  }

  /** The outline grows by one event as the document does. */
  lemma OutlineStep(clean: Cleaner, events: seq<Upstream>)
    requires events != []
    ensures var n := |events| - 1;
      var init := events[..n];
      Outline(clean, events, false) ==
        NextBlocks(clean, Outline(clean, init, false), LastMark(init), Waiting(init), events[n])
  {
    hide Openings, Outline, LastMark, Waiting, Handed, NextBlocks, OpensOn, Mark;
    var n := |events| - 1;
    var init, e := events[..n], events[n];
    var o := Openings(init);
    OpeningsGrow(events);
    NextBlocksAt(clean, Outline(clean, init, false), LastMark(init), Waiting(init), e);
    forall i | 0 <= i < |o| - 1
      ensures Outline(clean, events, false)[i] == Outline(clean, init, false)[i]
    {
      OutlineFront(clean, events, i);
    }
    if o != [] {
      OutlineLast(clean, events);
    }
    if OpensOn(LastMark(init), e) {
      OutlineOpened(clean, events);
    }
  }

  // ---------------------------------------------------------------- whole streams

  lemma RunsOk(clean: Cleaner, events: seq<Upstream>)
    ensures DocOk(RunFrom(clean, EMPTY_DOC, events)) && DocOk(Started(RunFrom(clean, EMPTY_DOC, events)))
  {
    RunOk(clean, EMPTY_DOC, events);
    hide RunFrom;
  }

  lemma NothingTold(clean: Cleaner)
    ensures RunFrom(clean, EMPTY_DOC, []).blocks == Outline(clean, [], false)
  {
  }

  lemma {:induction false} OutlineRun(clean: Cleaner, events: seq<Upstream>)
    requires Unending(events)
    ensures RunFrom(clean, EMPTY_DOC, events).blocks == Outline(clean, events, false)
  {
    hide After, Outline, NextBlocks, Openings, RunFrom, FrontOf, Waiting, LastMark, DocOk, FrontIn;
    if events == [] {
      NothingTold(clean);
    } else {
      var init, e := events[..|events| - 1], events[|events| - 1];
      OutlineRun(clean, init);
      WaitingIsBuffer(clean, init);
      FrontIsLastMark(init);
      RunsOk(clean, init);
      var d := RunFrom(clean, EMPTY_DOC, init);
      EventBlocks(clean, d, e);
      OutlineStep(clean, events);
      assert events == init + [e];
      RunConcat(clean, EMPTY_DOC, init, [e]);
      RunOne(clean, d, e);
    }
  }

  lemma OverFront(clean: Cleaner, events: seq<Upstream>, i: nat)
    requires i + 1 < |Openings(events)|
    ensures Outline(clean, events, true)[i] == Outline(clean, events, false)[i]
  {
    var o := Openings(events);
    OpeningsMark(events, i + 1);
    hide Openings, Mark, Waiting, Handed;
    assert NextMark(events, o[i] + 1) <= o[i + 1];
  }

  lemma ToldOver(clean: Cleaner, events: seq<Upstream>, from: nat)
    requires from < |events|
    ensures var open := Told(clean, events, from, |events|, false);
      Told(clean, events, from, |events|, true) ==
        if CallStillOpen(events, from) then Block(open.kind, Handed(clean, Waiting(events))) else open
  {
    hide Waiting, Handed, NextMark;
    assert events[..|events|] == events;
  }

  lemma OverLast(clean: Cleaner, events: seq<Upstream>)
    requires Openings(events) != []
    ensures var k := |Openings(events)| - 1;
      var open := Outline(clean, events, false)[k];
      Outline(clean, events, true)[k] ==
        if LastMark(events) == OpenTool then Block(open.kind, Handed(clean, Waiting(events))) else open
  {
    ToolOpenExactly(events);
    hide Openings, LastMark, Waiting, Handed, NextMark, Told, CallStillOpen;
    ToldOver(clean, events, Openings(events)[|Openings(events)| - 1]);
  }

  /** When the message is over a call's block that was still open has got its input too. */
  lemma OutlineOver(clean: Cleaner, events: seq<Upstream>)
    ensures Outline(clean, events, true) ==
      if LastMark(events) == OpenTool then WithLast(Outline(clean, events, false), Handed(clean, Waiting(events)))
      else Outline(clean, events, false)
  {
    hide Openings, Outline, LastMark, Waiting, Handed;
    var o := Openings(events);
    var open, over := Outline(clean, events, false), Outline(clean, events, true);
    ToolOpenExactly(events);
    forall i | 0 <= i < |o| - 1
      ensures open[i] == over[i]
    {
      OverFront(clean, events, i);
    }
    if o != [] {
      OverLast(clean, events);
    }
  }

  lemma DocumentEnds(clean: Cleaner, events: seq<Upstream>)
    ensures var h := Heard(events);
      var d := RunFrom(clean, EMPTY_DOC, h);
      && Sound(d)
      && Document(clean, events) ==
         if |h| == |events| then Closed(clean, Started(d)).(ended := Ended(EndTurn, NO_USAGE))
         else After(clean, d, events[|h|])
  {
    var h := Heard(events);
    var rest := events[|h|..];
    var d := RunFrom(clean, EMPTY_DOC, h);
    WaitingIsBuffer(clean, h);
    assert events == h + rest;
    RunConcat(clean, EMPTY_DOC, h, rest);
    if rest != [] {
      EndedByTerminal(clean, d, rest[0]);
    }
    hide After, Closed, Heard;
  }

  /** How the message ends: as the first event that ends it says, or plainly when none came. */
  function EndTold(events: seq<Upstream>): Ended {
    var h := Heard(events);
    if |h| == |events| then Ended(EndTurn, NO_USAGE)
    else
      match events[|h|]
      case Completed(finish, usage) =>
        Ended(if finish == CutAtMaxTokens then MaxTokens
              else if exists k | 0 <= k < |h| :: h[k].ItemAdded? && h[k].item.FunctionCallItem? then ToolUse
              else EndTurn,
              if usage.Reported? then usage.usage else NO_USAGE)
      case _ => Ended(EndTurn, NO_USAGE)
  }

  lemma EndIsTold(clean: Cleaner, events: seq<Upstream>)
    ensures Document(clean, events).ended == EndTold(events) && EndTold(events).Ended?
  {
    var h := Heard(events);
    var d := RunFrom(clean, EMPTY_DOC, h);
    DocumentEnds(clean, events);
    WaitingIsBuffer(clean, h);
    ToolAfterRun(clean, EMPTY_DOC, h);
    ToolAfterClose(clean, Started(d));
    hide Document, RunFrom, Closed, HasTool, FrontOf, Waiting, Heard, FrontIn;
    assert (exists k | 0 <= k < |h| :: OpensTool(h[k]))
      <==> exists k | 0 <= k < |h| :: h[k].ItemAdded? && h[k].item.FunctionCallItem?;
  }

  lemma ClosedIsTold(clean: Cleaner, events: seq<Upstream>)
    requires Unending(events)
    ensures Closed(clean, Started(RunFrom(clean, EMPTY_DOC, events))).blocks == Outline(clean, events, true)
  {
    hide Outline, Openings, LastMark, RunFrom, Closed, FrontOf, Waiting, Handed, WithLast, DocOk;
    var d := RunFrom(clean, EMPTY_DOC, events);
    OutlineRun(clean, events);
    OutlineOver(clean, events);
    WaitingIsBuffer(clean, events);
    FrontIsLastMark(events);
    RunsOk(clean, events);
    ClosedBlocks(clean, Started(d));
  }

  lemma EndsClosed(clean: Cleaner, d: Doc, e: Upstream)
    requires Terminal(e)
    ensures After(clean, d, e).blocks == Closed(clean, Started(d)).blocks
  {
  }

  lemma BlocksAreTold(clean: Cleaner, events: seq<Upstream>)
    ensures Document(clean, events).blocks == Outline(clean, Heard(events), true)
  {
    hide Document, Outline, RunFrom, Closed, After, Heard;
    var h := Heard(events);
    DocumentEnds(clean, events);
    ClosedIsTold(clean, h);
    if |h| < |events| {
      EndsClosed(clean, RunFrom(clean, EMPTY_DOC, h), events[|h|]);
    }
  }

  /** Whatever the upstream sends: one block for each event that opens one, holding the pieces or the input that came
      for it, and the end the upstream gave. */
  lemma DocumentIsOutline(clean: Cleaner, events: seq<Upstream>)
    ensures var d := Document(clean, events);
      && d.blocks == Outline(clean, Heard(events), true) && |d.blocks| == |Openings(Heard(events))|
      && d.ended == EndTold(events)
  {
    BlocksAreTold(clean, events);
    EndIsTold(clean, events);
    hide Document, Outline, Openings, Heard, EndTold;
  }

  // ---------------------------------------------------------------- the client's side

  /** A client that accepts the frames of one message only in the order they have to come. */
  datatype Client =
    | Waits
    | Reads(blocks: seq<Block>, open: bool)
    | Ends(blocks: seq<Block>, stop: StopReason, usage: Usage)
    | Has(blocks: seq<Block>, stop: StopReason, usage: Usage)
    | Confused

  function Follow(c: Client, e: Downstream): Client {
    match e
    case MessageStart => if c.Waits? then Reads([], false) else Confused
    case BlockStart(index, kind) =>
      if c.Reads? && !c.open && index == |c.blocks| then Reads(c.blocks + [Block(kind, [])], true) else Confused
    case BlockDelta(index, delta) =>
      if c.Reads? && c.open && c.blocks != [] && index == |c.blocks| - 1 && Fits(c.blocks[index].kind, delta)
      then Reads(WithLast(c.blocks, LastDeltas(c.blocks) + [delta]), true) else Confused
    case BlockStop(index) =>
      if c.Reads? && c.open && index == |c.blocks| - 1 then Reads(c.blocks, false) else Confused
    case MessageDelta(stop, usage) => if c.Reads? && !c.open then Ends(c.blocks, stop, usage) else Confused
    case MessageStop => if c.Ends? then Has(c.blocks, c.stop, c.usage) else Confused
  }

  function FollowAll(c: Client, frames: seq<Downstream>): Client {
    if frames == [] then c else Follow(FollowAll(c, frames[..|frames| - 1]), frames[|frames| - 1])
  }

  lemma {:induction false} FollowConcat(c: Client, a: seq<Downstream>, b: seq<Downstream>)
    ensures FollowAll(c, a + b) == FollowAll(FollowAll(c, a), b)
  {
    if b == [] {
      assert a + b == a;
    } else {
      assert (a + b)[..|a + b| - 1] == a + b[..|b| - 1];
      FollowConcat(c, a, b[..|b| - 1]);
    }
  }

  lemma FollowOne(c: Client, e: Downstream)
    ensures FollowAll(c, [e]) == Follow(c, e)
  {
    assert [e][..0] == [];
    assert FollowAll(c, []) == c;
  }

  lemma {:induction false} FollowDeltas(before: seq<Block>, kind: BlockKind, deltas: seq<Delta>)
    requires forall i | 0 <= i < |deltas| :: Fits(kind, deltas[i])
    ensures FollowAll(Reads(before + [Block(kind, [])], true), RenderDeltas(|before|, deltas)) ==
      Reads(before + [Block(kind, deltas)], true)
  {
    if deltas != [] {
      var init, last := deltas[..|deltas| - 1], deltas[|deltas| - 1];
      var frames := RenderDeltas(|before|, deltas);
      FollowDeltas(before, kind, init);
      assert frames[..|frames| - 1] == RenderDeltas(|before|, init);
      assert init + [last] == deltas;
      assert (before + [Block(kind, init)])[|before| := Block(kind, deltas)] == before + [Block(kind, deltas)];
    }
  }

  lemma FollowBlock(before: seq<Block>, b: Block)
    requires BlockOk(b)
    ensures FollowAll(Reads(before, false), RenderBlock(|before|, b, false)) == Reads(before + [b], false)
  {
    var start, middle, stop := [BlockStart(|before|, b.kind)], RenderDeltas(|before|, b.deltas), [BlockStop(|before|)];
    FollowConcat(Reads(before, false), start, middle + stop);
    FollowOne(Reads(before, false), BlockStart(|before|, b.kind));
    FollowConcat(Reads(before + [Block(b.kind, [])], true), middle, stop);
    FollowDeltas(before, b.kind, b.deltas);
    FollowOne(Reads(before + [b], true), BlockStop(|before|));
    assert RenderBlock(|before|, b, false) == start + (middle + stop);
  }

  lemma {:induction false} FollowBlocks(blocks: seq<Block>)
    requires forall i | 0 <= i < |blocks| :: BlockOk(blocks[i])
    ensures FollowAll(Reads([], false), RenderBlocks(blocks, false)) == Reads(blocks, false)
  {
    if blocks != [] {
      var init, last := blocks[..|blocks| - 1], blocks[|blocks| - 1];
      FollowBlocks(init);
      FollowBlock(init, last);
      FollowConcat(Reads([], false), RenderBlocks(init, false), RenderBlock(|init|, last, false));
      assert init + [last] == blocks;
    }
  }

  /** A strict client is never confused and ends up with exactly the outline of what the upstream sent. */
  lemma ClientHasOutline(clean: Cleaner, events: seq<Upstream>)
    ensures EndTold(events).Ended?
    ensures FollowAll(Waits, Render(Document(clean, events))) ==
      Has(Outline(clean, Heard(events), true), EndTold(events).stop, EndTold(events).usage)
  {
    DocumentIsOutline(clean, events);
    EndIsTold(clean, events);
    StreamWellBracketed(clean, events);
    hide Document, Render, Outline, Openings, Heard, EndTold, RenderBlocks;
    var d := Document(clean, events);
    var first, middle := [MessageStart], RenderBlocks(d.blocks, false);
    var delta, stop := MessageDelta(d.ended.stop, d.ended.usage), MessageStop;
    assert Render(d) == first + (middle + ([delta] + [stop]));
    FollowConcat(Waits, first, middle + ([delta] + [stop]));
    FollowOne(Waits, MessageStart);
    FollowConcat(Reads([], false), middle, [delta] + [stop]);
    FollowBlocks(d.blocks);
    FollowConcat(Reads(d.blocks, false), [delta], [stop]);
    FollowOne(Reads(d.blocks, false), delta);
    FollowOne(Ends(d.blocks, d.ended.stop, d.ended.usage), stop);
  }
}
