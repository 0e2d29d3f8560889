/** The stateful translator and its driving loop. The ghost field `doc` is the document said so far; every
    event method returns exactly what extends its rendering. */
module AnthropicTranslator {
  import opened AnthropicStream
  import BlockOutline

  datatype BlockType = NoType | TextType | ThinkingType | ToolUseType

  function TypeOf(kind: BlockKind): BlockType {
    match kind
    case TextBlock => TextType
    case ThinkingBlock => ThinkingType
    case ToolBlock(_, _) => ToolUseType
  }

  lemma RenderOpened(d: Doc, kind: BlockKind)
    requires !d.open && d.started && d.ended == Running
    ensures Render(d.(blocks := d.blocks + [Block(kind, [])], open := true)) ==
      Render(d) + [BlockStart(|d.blocks|, kind)]
  {
    var d' := d.(blocks := d.blocks + [Block(kind, [])], open := true);
    assert d'.blocks[..|d.blocks|] == d.blocks;
    assert RenderDeltas(|d.blocks|, []) == [];
  }

  lemma RenderDelta(d: Doc, delta: Delta)
    requires d.open && d.blocks != [] && d.ended == Running
    ensures Render(WithDelta(d, delta)) == Render(d) + [BlockDelta(|d.blocks| - 1, delta)]
  {
    var n := |d.blocks| - 1;
    var d' := WithDelta(d, delta);
    assert d'.blocks[..n] == d.blocks[..n];
    assert RenderDeltas(n, d.blocks[n].deltas + [delta]) ==
      RenderDeltas(n, d.blocks[n].deltas) + [BlockDelta(n, delta)];
  }

  lemma RenderClose(d: Doc)
    requires d.open && d.blocks != [] && d.ended == Running
    ensures Render(d.(open := false)) == Render(d) + [BlockStop(|d.blocks| - 1)]
  {
    assert d.(open := false).blocks[..|d.blocks| - 1] == d.blocks[..|d.blocks| - 1];
  }

  lemma RenderEnd(d: Doc, stop: StopReason, usage: Usage)
    requires d.ended == Running
    ensures Render(d.(ended := Ended(stop, usage))) == Render(d) + [MessageDelta(stop, usage)] + [MessageStop]
  {
  }

  lemma RenderIgnoresBuffer(d: Doc, buffer: string)
    ensures Render(d.(buffer := buffer)) == Render(d)
  {
  }

  class Translator {
    const clean: Cleaner
    var messageStartSent: bool
    var contentBlockIndex: int
    var contentBlockOpen: bool
    var currentBlockType: BlockType
    var toolInputBuffer: string
    var hasToolUse: bool
    var usage: Usage
    ghost var doc: Doc

    /** The fields are what the document needs remembered. */
    ghost predicate Valid()
      reads this
    {
      && messageStartSent == doc.started
      && (!doc.started ==> doc.blocks == [])
      && contentBlockIndex == |doc.blocks|
      && contentBlockOpen == doc.open
      && (doc.open ==> doc.blocks != [] && currentBlockType == TypeOf(doc.blocks[|doc.blocks| - 1].kind))
      && toolInputBuffer == doc.buffer
      && hasToolUse == HasTool(doc.blocks)
      && (doc.ended == Running ==> usage == NO_USAGE)
    }

    constructor (clean: Cleaner)
      ensures Valid() && doc == EMPTY_DOC && this.clean == clean
    {
      this.clean := clean;
      messageStartSent, contentBlockIndex, contentBlockOpen, currentBlockType := false, 0, false, NoType;
      toolInputBuffer, hasToolUse, usage := "", false, NO_USAGE;
      doc := EMPTY_DOC;
    }

    method HandleCreated() returns (out: seq<Downstream>)
      requires Valid() && doc.ended == Running
      modifies this
      ensures Valid() && doc == Started(old(doc)) && Render(doc) == Render(old(doc)) + out
    {
      if messageStartSent {
        return [];
      }
      messageStartSent := true;
      doc := Started(doc);
      out := [MessageStart];
    }

    method CloseCurrentBlock() returns (out: seq<Downstream>)
      requires Valid() && doc.ended == Running
      modifies this
      ensures Valid() && doc == Closed(clean, old(doc)) && Render(doc) == Render(old(doc)) + out
    {
      if !contentBlockOpen {
        return [];
      }
      contentBlockOpen := false;
      var idx := contentBlockIndex - 1;
      out := [];
      ghost var d := doc;
      if currentBlockType == ToolUseType && |toolInputBuffer| > 0 {
        var cleaned := clean(toolInputBuffer);
        if cleaned != "" {
          out := out + [BlockDelta(idx, JsonPart(cleaned))];
          RenderDelta(d, JsonPart(cleaned));
          ToolKept(d, JsonPart(cleaned));
          d := WithDelta(d, JsonPart(cleaned));
        }
        toolInputBuffer := "";
        RenderIgnoresBuffer(d, "");
        d := d.(buffer := "");
      }
      out := out + [BlockStop(idx)];
      RenderClose(d);
      doc := d.(open := false);
    }

    /** Closes whatever is open and starts a block of the given kind. */
    method OpenBlock(kind: BlockKind) returns (out: seq<Downstream>)
      requires Valid() && doc.ended == Running && doc.started
      modifies this
      ensures Valid() && doc == Opened(clean, old(doc), kind) && Render(doc) == Render(old(doc)) + out
      ensures doc.ended == Running && doc.open && doc.blocks != []
    {
      out := CloseCurrentBlock();
      ClosedFields(clean, old(doc));
      RenderOpened(doc, kind);
      ToolAdded(doc, kind);
      var idx := contentBlockIndex;
      contentBlockIndex := contentBlockIndex + 1;
      contentBlockOpen := true;
      currentBlockType := TypeOf(kind);
      if kind.ToolBlock? {
        hasToolUse := true;
      }
      doc := doc.(blocks := doc.blocks + [Block(kind, [])], open := true);
      out := out + [BlockStart(idx, kind)];
    }

    method HandleOutputItemAdded(item: AddedItem) returns (out: seq<Downstream>)
      requires Valid() && doc.ended == Running
      modifies this
      ensures Valid() && doc == After(clean, old(doc), ItemAdded(item)) && Render(doc) == Render(old(doc)) + out
    {
      hide Opened, Closed, HasTool, RenderBlocks;
      out := HandleCreated();
      match item {
        case ReasoningItem =>
          OpenedStarted(clean, old(doc), ThinkingBlock);
          var start := OpenBlock(ThinkingBlock);
          out := out + start;
        case FunctionCallItem(callID, name) =>
          OpenedStarted(clean, old(doc), ToolBlock(FromCodexCallID(callID), name));
          var start := OpenBlock(ToolBlock(FromCodexCallID(callID), name));
          out := out + start;
        case _ =>
      }
    }

    /** A text or thinking delta: opens a block of its kind unless one is open already. */
    method HandleDelta(kind: BlockKind, delta: Delta) returns (out: seq<Downstream>)
      requires Valid() && doc.ended == Running && !kind.ToolBlock?
      modifies this
      ensures Valid() && doc == Extended(clean, old(doc), kind, delta) && Render(doc) == Render(old(doc)) + out
    {
      hide HasTool, Closed, RenderBlocks;
      out := HandleCreated();
      if !contentBlockOpen || currentBlockType != TypeOf(kind) {
        var start := OpenBlock(kind);
        out := out + start;
      }
      var idx := contentBlockIndex - 1;
      out := out + [BlockDelta(idx, delta)];
      RenderDelta(doc, delta);
      ToolKept(doc, delta);
      doc := WithDelta(doc, delta);
    }

    method HandleTextDelta(delta: string) returns (out: seq<Downstream>)
      requires Valid() && doc.ended == Running
      modifies this
      ensures Valid() && doc == After(clean, old(doc), TextDelta(delta)) && Render(doc) == Render(old(doc)) + out
    {
      if delta == "" {
        return [];
      }
      out := HandleDelta(TextBlock, TextPart(delta));
    }

    method HandleThinkingDelta(delta: string) returns (out: seq<Downstream>)
      requires Valid() && doc.ended == Running
      modifies this
      ensures Valid() && doc == After(clean, old(doc), ThinkingDelta(delta)) && Render(doc) == Render(old(doc)) + out
    {
      if delta == "" {
        return [];
      }
      out := HandleDelta(ThinkingBlock, ThinkingPart(delta));
    }

    method HandleToolInputDelta(delta: string) returns (out: seq<Downstream>)
      requires Valid() && doc.ended == Running
      modifies this
      ensures Valid() && doc == After(clean, old(doc), ToolDelta(delta)) && Render(doc) == Render(old(doc)) + out
    {
      out := [];
      RenderIgnoresBuffer(doc, doc.buffer + delta);
      if delta == "" {
        assert doc.buffer + delta == doc.buffer;
        return;
      }
      toolInputBuffer := toolInputBuffer + delta;
      doc := doc.(buffer := doc.buffer + delta);
    }

    /** Opens the message if need be and closes any block, before the two closing events. */
    method WindUp() returns (out: seq<Downstream>)
      requires Valid() && doc.ended == Running
      modifies this
      ensures Valid() && doc == Closed(clean, Started(old(doc))) && Render(doc) == Render(old(doc)) + out
    {
      out := HandleCreated();
      var closing := CloseCurrentBlock();
      out := out + closing;
    }

    method HandleCompleted(finish: Finish, reported: OptionalUsage) returns (out: seq<Downstream>)
      requires Valid() && doc.ended == Running
      modifies this
      ensures Valid() && doc == After(clean, old(doc), Completed(finish, reported))
      ensures Render(doc) == Render(old(doc)) + out
    {
      hide Closed, HasTool, RenderBlocks;
      out := WindUp();
      ClosedFields(clean, Started(old(doc)));
      if reported.Reported? {
        usage := reported.usage;
      }
      var stopReason := EndTurn;
      if finish == CutAtMaxTokens {
        stopReason := MaxTokens;
      }
      if hasToolUse && stopReason == EndTurn {
        stopReason := ToolUse;
      }
      out := out + [MessageDelta(stopReason, usage)];
      out := out + [MessageStop];
      RenderEnd(doc, stopReason, usage);
      doc := doc.(ended := Ended(stopReason, usage));
    }

    method HandleFailed() returns (out: seq<Downstream>)
      requires Valid() && doc.ended == Running
      modifies this
      ensures Valid() && doc == After(clean, old(doc), Failed) && Render(doc) == Render(old(doc)) + out
    {
      hide Closed, HasTool, RenderBlocks;
      out := WindUp();
      ClosedFields(clean, Started(old(doc)));
      out := out + [MessageDelta(EndTurn, NO_USAGE)];
      out := out + [MessageStop];
      RenderEnd(doc, EndTurn, NO_USAGE);
      doc := doc.(ended := Ended(EndTurn, NO_USAGE));
    }

    method TranslateEvent(e: Upstream) returns (out: seq<Downstream>)
      requires Valid() && doc.ended == Running
      modifies this
      ensures Valid() && doc == After(clean, old(doc), e) && Render(doc) == Render(old(doc)) + out
    {
      match e {
        case Created => out := HandleCreated();
        case ItemAdded(item) => out := HandleOutputItemAdded(item);
        case TextDelta(delta) => out := HandleTextDelta(delta);
        case ThinkingDelta(delta) => out := HandleThinkingDelta(delta);
        case ToolDelta(delta) => out := HandleToolInputDelta(delta);
        case ContentDone => out := CloseCurrentBlock();
        case ItemDone => out := CloseCurrentBlock();
        case Completed(finish, reported) => out := HandleCompleted(finish, reported);
        case Failed => out := HandleFailed();
        case OtherEvent => out := [];
      }
    }

    method Finalize() returns (out: seq<Downstream>)
      requires Valid() && doc.ended == Running
      modifies this
      ensures Valid() && doc == Finalized(clean, old(doc)) && Render(doc) == Render(old(doc)) + out
    {
      hide Closed, HasTool, RenderBlocks;
      out := WindUp();
      ClosedFields(clean, Started(old(doc)));
      out := out + [MessageDelta(EndTurn, usage)];
      out := out + [MessageStop];
      RenderEnd(doc, EndTurn, usage);
      doc := doc.(ended := Ended(EndTurn, usage));
    }
  }

  /** The streaming handler: translates until a terminal event, and completes the stream if none came. */
  method TranslateStream(clean: Cleaner, events: seq<Upstream>) returns (out: seq<Downstream>)
    ensures out == Render(Document(clean, events))
    ensures var told := BlockOutline.Outline(clean, BlockOutline.Heard(events), true);
      var end := BlockOutline.EndTold(events);
      end.Ended? && BlockOutline.FollowAll(BlockOutline.Waits, out) == BlockOutline.Has(told, end.stop, end.usage)
  {
    hide After, Render, BlockOutline.Outline, BlockOutline.Heard, BlockOutline.EndTold, BlockOutline.FollowAll;
    BlockOutline.ClientHasOutline(clean, events);
    var t := new Translator(clean);
    out := [];
    EmptyRender();
    var gotTerminal := false;
    var i := 0;
    while i < |events| && !gotTerminal
      invariant i <= |events| && t.Valid() && t.clean == clean && fresh(t)
      invariant gotTerminal == (t.doc.ended != Running)
      invariant out == Render(t.doc)
      invariant RunFrom(clean, t.doc, events[i..]) == RunFrom(clean, EMPTY_DOC, events)
    {
      EndedByTerminal(clean, t.doc, events[i]);
      var translated := t.TranslateEvent(events[i]);
      out := out + translated;
      gotTerminal := events[i].Completed? || events[i].Failed?;
      assert events[i..][1..] == events[i + 1..];
      i := i + 1;
    }
    if !gotTerminal {
      var rest := t.Finalize();
      out := out + rest;
    }
  }

  lemma EmptyRender()
    ensures Render(EMPTY_DOC) == []
  {
  }

  lemma ToolKept(d: Doc, delta: Delta)
    requires d.blocks != []
    ensures HasTool(WithDelta(d, delta).blocks) == HasTool(d.blocks)
  {
    assert forall i | 0 <= i < |d.blocks| :: WithDelta(d, delta).blocks[i].kind == d.blocks[i].kind;
  }

  lemma ToolAdded(d: Doc, kind: BlockKind)
    ensures HasTool(d.blocks + [Block(kind, [])]) == (HasTool(d.blocks) || kind.ToolBlock?)
  {
    var b := d.blocks + [Block(kind, [])];
    assert forall i | 0 <= i < |d.blocks| :: b[i] == d.blocks[i];
    assert b[|d.blocks|].kind == kind;
  }

  lemma OpenedStarted(clean: Cleaner, d: Doc, kind: BlockKind)
    ensures Opened(clean, Started(d), kind) == Opened(clean, d, kind)
  {
  }

  lemma ClosedFields(clean: Cleaner, d: Doc)
    ensures Closed(clean, d).started == d.started && Closed(clean, d).ended == d.ended && !Closed(clean, d).open
  {
  }
}
