/** The non-streaming builder, and its agreement with what a client reassembles from the stream. */
module AnthropicBatch {
  import opened AnthropicStream
  import opened Wrappers

  datatype Content =
    | TextContent(text: string)
    | ThinkingContent(text: string)
    | ToolContent(id: string, name: string, input: string)

  /** One summary part of a reasoning item, as the pieces it is streamed in and whether a done event follows it. */
  datatype SummaryPart = SummaryPart(chunks: seq<string>, done: bool)

  datatype MessagePart = OutputText(chunks: seq<string>) | OtherPart

  /** An output item, each of its texts given as the pieces it is streamed in. */
  datatype OutputItem =
    | Reasoning(summary: seq<SummaryPart>)
    | Message(parts: seq<MessagePart>)
    | FunctionCall(callID: string, name: string, arguments: seq<string>)
    | UnknownItem

  function Concat(chunks: seq<string>): string {
    if chunks == [] then "" else chunks[0] + Concat(chunks[1..])
  }

  // ---------------------------------------------------------------- the builder

  function SummaryText(parts: seq<SummaryPart>): string {
    if parts == [] then "" else Concat(parts[0].chunks) + SummaryText(parts[1..])
  }

  function MessageContents(parts: seq<MessagePart>): seq<Content> {
    if parts == [] then []
    else
      (if parts[0].OutputText? && Concat(parts[0].chunks) != "" then [TextContent(Concat(parts[0].chunks))] else [])
      + MessageContents(parts[1..])
  }

  function ToolInput(cleaned: string): string {
    if cleaned == "" then "{}" else cleaned
  }

  function ItemContents(clean: Cleaner, item: OutputItem): seq<Content> {
    match item
    case Reasoning(summary) => if SummaryText(summary) == "" then [] else [ThinkingContent(SummaryText(summary))]
    case Message(parts) => MessageContents(parts)
    case FunctionCall(callID, name, arguments) =>
      [ToolContent(FromCodexCallID(callID), name, ToolInput(clean(Concat(arguments))))]
    case UnknownItem => []
  }

  function BuiltContents(clean: Cleaner, items: seq<OutputItem>): seq<Content> {
    if items == [] then [] else ItemContents(clean, items[0]) + BuiltContents(clean, items[1..])
  }

  /** One turn of the builder's loop over the output array. */
  method BuildItem(clean: Cleaner, item: OutputItem, before: seq<Content>, lastWasTool: bool)
      returns (content: seq<Content>, lastBlockIsToolUse: bool)
    requires lastWasTool == EndsWithTool(before)
    ensures content == before + ItemContents(clean, item)
    ensures lastBlockIsToolUse == EndsWithTool(content)
  {
    content, lastBlockIsToolUse := before, lastWasTool;
    match item {
      case Reasoning(summary) =>
        var text := SummaryText(summary);
        if text != "" {
          content := content + [ThinkingContent(text)];
          lastBlockIsToolUse := false;
        }
      case Message(parts) =>
        for j := 0 to |parts|
          invariant content + MessageContents(parts[j..]) == before + MessageContents(parts)
          invariant lastBlockIsToolUse == EndsWithTool(content)
        {
          assert parts[j..][1..] == parts[j + 1..];
          if parts[j].OutputText? {
            var text := Concat(parts[j].chunks);
            if text != "" {
              content := content + [TextContent(text)];
              lastBlockIsToolUse := false;
            }
          }
        }
      case FunctionCall(callID, name, arguments) =>
        var args := Concat(arguments);
        var cleaned := clean(args);
        if cleaned != "" {
          args := cleaned;
        } else {
          args := "{}";
        }
        content := content + [ToolContent(FromCodexCallID(callID), name, args)];
        lastBlockIsToolUse := true;
      case UnknownItem =>
    }
  }

  /** The answer that is not streamed. Without an output array it has neither content nor stop reason. */
  method BuildResponse(clean: Cleaner, outputs: Option<seq<OutputItem>>, finish: Finish)
      returns (content: seq<Content>, stop: Option<StopReason>)
    ensures outputs.None? ==> content == [] && stop == None
    ensures outputs.Some? ==>
      content == BuiltContents(clean, outputs.value) && stop == Some(BuiltStop(clean, outputs.value, finish))
  {
    hide ItemContents;
    if outputs.None? {
      return [], None;
    }
    var items := outputs.value;
    content := [];
    var lastBlockIsToolUse := false;
    for i := 0 to |items|
      invariant content + BuiltContents(clean, items[i..]) == BuiltContents(clean, items)
      invariant lastBlockIsToolUse == EndsWithTool(content)
    {
      assert items[i..][1..] == items[i + 1..];
      ghost var before := content;
      content, lastBlockIsToolUse := BuildItem(clean, items[i], content, lastBlockIsToolUse);
      assert before + (ItemContents(clean, items[i]) + BuiltContents(clean, items[i + 1..]))
          == content + BuiltContents(clean, items[i + 1..]);
    }
    match finish {
      case CutAtMaxTokens => stop := Some(MaxTokens);
      case CutOtherwise => stop := Some(EndTurn);
      case Whole => stop := Some(if lastBlockIsToolUse then ToolUse else EndTurn);
    }
  }

  predicate EndsWithTool(content: seq<Content>) {
    content != [] && content[|content| - 1].ToolContent?
  }

  function BuiltStop(clean: Cleaner, items: seq<OutputItem>, finish: Finish): StopReason {
    match finish
    case CutAtMaxTokens => MaxTokens
    case CutOtherwise => EndTurn
    case Whole => if EndsWithTool(BuiltContents(clean, items)) then ToolUse else EndTurn
  }

  /** A call whose arguments come to nothing is answered with an empty object as its input. */
  lemma EmptyInput(clean: Cleaner, callID: string, name: string, arguments: seq<string>)
    requires clean(Concat(arguments)) == ""
    ensures BuiltContents(clean, [FunctionCall(callID, name, arguments)]) ==
      [ToolContent(FromCodexCallID(callID), name, "{}")]
  {
    var items := [FunctionCall(callID, name, arguments)];
    assert items[1..] == [] && BuiltContents(clean, []) == [];
    assert BuiltContents(clean, items) == ItemContents(clean, items[0]) + [];
  }

  // ---------------------------------------------------------------- the same items as a stream

  function ThinkingDeltas(chunks: seq<string>): seq<Upstream> {
    seq(|chunks|, i requires 0 <= i < |chunks| => ThinkingDelta(chunks[i]))
  }

  function TextDeltas(chunks: seq<string>): seq<Upstream> {
    seq(|chunks|, i requires 0 <= i < |chunks| => TextDelta(chunks[i]))
  }

  function ToolDeltas(chunks: seq<string>): seq<Upstream> {
    seq(|chunks|, i requires 0 <= i < |chunks| => ToolDelta(chunks[i]))
  }

  function SummaryEvents(parts: seq<SummaryPart>): seq<Upstream> {
    if parts == [] then []
    else ThinkingDeltas(parts[0].chunks) + (if parts[0].done then [ContentDone] else []) + SummaryEvents(parts[1..])
  }

  function MessageEvents(parts: seq<MessagePart>): seq<Upstream> {
    if parts == [] then []
    else
      (if parts[0].OutputText? then TextDeltas(parts[0].chunks) + [ContentDone] else [OtherEvent])
      + MessageEvents(parts[1..])
  }

  function ItemEvents(item: OutputItem): seq<Upstream> {
    match item
    case Reasoning(summary) => [ItemAdded(ReasoningItem)] + SummaryEvents(summary) + [ItemDone]
    case Message(parts) => [ItemAdded(MessageItem)] + MessageEvents(parts) + [ItemDone]
    case FunctionCall(callID, name, arguments) =>
      [ItemAdded(FunctionCallItem(callID, name))] + ToolDeltas(arguments) + [OtherEvent, ItemDone]
    case UnknownItem => [ItemAdded(OtherItem), ItemDone]
  }

  function AllEvents(items: seq<OutputItem>): seq<Upstream> {
    if items == [] then [] else ItemEvents(items[0]) + AllEvents(items[1..])
  }

  function ResponseEvents(items: seq<OutputItem>, finish: Finish, usage: OptionalUsage): seq<Upstream> {
    [Created] + AllEvents(items) + [Completed(finish, usage)]
  }

  // ---------------------------------------------------------------- what the client reassembles

  function ContentOf(b: Block): Content {
    match b.kind
    case TextBlock => TextContent(TextOf(b.deltas))
    case ThinkingBlock => ThinkingContent(TextOf(b.deltas))
    case ToolBlock(id, name) => ToolContent(id, name, ToolInput(TextOf(b.deltas)))
  }

  /** Appends a content block, dropping empty thinking and joining neighbouring thinking. */
  function Push(n: seq<Content>, c: Content): seq<Content> {
    if !c.ThinkingContent? then n + [c]
    else if c.text == "" then n
    else if n != [] && n[|n| - 1].ThinkingContent? then n[|n| - 1 := ThinkingContent(n[|n| - 1].text + c.text)]
    else n + [c]
  }

  function PushAll(n: seq<Content>, cs: seq<Content>): seq<Content>
    decreases |cs|
  {
    if cs == [] then n else PushAll(Push(n, cs[0]), cs[1..])
  }

  function View(blocks: seq<Block>): seq<Content> {
    if blocks == [] then [] else Push(View(blocks[..|blocks| - 1]), ContentOf(blocks[|blocks| - 1]))
  }

  lemma PushPush(n: seq<Content>, a: string, b: string)
    ensures Push(Push(n, ThinkingContent(a)), ThinkingContent(b)) == Push(n, ThinkingContent(a + b))
  {
    if a == "" {
      assert a + b == b;
    } else if b == "" {
      assert a + b == a;
    } else {
      assert a + b != "";
      if n != [] && n[|n| - 1].ThinkingContent? {
        var t := n[|n| - 1].text;
        assert t + a + b == t + (a + b);
      }
    }
  }

  lemma {:induction false} PushAllConcat(n: seq<Content>, a: seq<Content>, b: seq<Content>)
    ensures PushAll(n, a + b) == PushAll(PushAll(n, a), b)
    decreases |a|
  {
    if a == [] {
      assert a + b == b;
    } else {
      assert (a + b)[1..] == a[1..] + b;
      PushAllConcat(Push(n, a[0]), a[1..], b);
    }
  }

  lemma {:induction false} RunConcat(clean: Cleaner, d: Doc, a: seq<Upstream>, b: seq<Upstream>)
    ensures RunFrom(clean, d, a + b) == RunFrom(clean, RunFrom(clean, d, a), b)
    decreases |a|
  {
    if a == [] {
      assert a + b == b;
    } else if d.ended == Running {
      assert (a + b)[1..] == a[1..] + b;
      RunConcat(clean, After(clean, d, a[0]), a[1..], b);
    } else if b != [] {
    }
  }

  lemma RunOne(clean: Cleaner, d: Doc, e: Upstream)
    requires d.ended == Running
    ensures RunFrom(clean, d, [e]) == After(clean, d, e)
  {
  }

  /** Between items: begun, not ended, nothing open and no stray tool input. */
  predicate Calm(d: Doc) {
    d.started && d.ended == Running && d.buffer == ""
  }

  predicate OpenKind(d: Doc, kind: BlockKind) {
    d.open && d.blocks != [] && d.blocks[|d.blocks| - 1].kind == kind
  }

  lemma ViewAppend(blocks: seq<Block>, b: Block)
    ensures View(blocks + [b]) == Push(View(blocks), ContentOf(b))
  {
    assert (blocks + [b])[..|blocks|] == blocks;
  }

  lemma ContentAfterDelta(b: Block, delta: Delta)
    ensures TextOf(b.deltas + [delta]) == TextOf(b.deltas) + delta.text
  {
    assert (b.deltas + [delta])[..|b.deltas|] == b.deltas;
  }

  // ---------------------------------------------------------------- reasoning

  lemma ThinkingStep(clean: Cleaner, d: Doc, c: string)
    requires Calm(d) && (d.open ==> OpenKind(d, ThinkingBlock))
    ensures var d' := After(clean, d, ThinkingDelta(c));
            && Calm(d') && (d'.open ==> OpenKind(d', ThinkingBlock))
            && View(d'.blocks) == Push(View(d.blocks), ThinkingContent(c))
  {
    if c != "" {
      if d.open {
        var n := |d.blocks| - 1;
        var b := d.blocks[n];
        var b' := Block(ThinkingBlock, b.deltas + [ThinkingPart(c)]);
        ContentAfterDelta(b, ThinkingPart(c));
        assert d.blocks == d.blocks[..n] + [b];
        assert After(clean, d, ThinkingDelta(c)).blocks == d.blocks[..n] + [b'];
        ViewAppend(d.blocks[..n], b);
        ViewAppend(d.blocks[..n], b');
        PushPush(View(d.blocks[..n]), TextOf(b.deltas), c);
      } else {
        var b' := Block(ThinkingBlock, [ThinkingPart(c)]);
        assert [] + [ThinkingPart(c)] == [ThinkingPart(c)];
        assert After(clean, d, ThinkingDelta(c)).blocks == d.blocks + [b'];
        assert TextOf([ThinkingPart(c)]) == TextOf([]) + c == c;
        ViewAppend(d.blocks, b');
      }
    }
  }

  lemma {:induction false} ThinkingRun(clean: Cleaner, d: Doc, chunks: seq<string>)
    requires Calm(d) && (d.open ==> OpenKind(d, ThinkingBlock))
    ensures var d' := RunFrom(clean, d, ThinkingDeltas(chunks));
            && Calm(d') && (d'.open ==> OpenKind(d', ThinkingBlock))
            && View(d'.blocks) == Push(View(d.blocks), ThinkingContent(Concat(chunks)))
    decreases |chunks|
  {
    if chunks != [] {
      ThinkingStep(clean, d, chunks[0]);
      assert ThinkingDeltas(chunks)[1..] == ThinkingDeltas(chunks[1..]);
      ThinkingRun(clean, After(clean, d, ThinkingDelta(chunks[0])), chunks[1..]);
      PushPush(View(d.blocks), chunks[0], Concat(chunks[1..]));
    }
  }

  lemma CloseThinking(clean: Cleaner, d: Doc)
    requires Calm(d) && (d.open ==> OpenKind(d, ThinkingBlock) || OpenKind(d, TextBlock))
    ensures Closed(clean, d) == d.(open := false)
  {
  }

  lemma {:induction false} SummaryRun(clean: Cleaner, d: Doc, parts: seq<SummaryPart>)
    requires Calm(d) && (d.open ==> OpenKind(d, ThinkingBlock))
    ensures var d' := RunFrom(clean, d, SummaryEvents(parts));
            && Calm(d') && (d'.open ==> OpenKind(d', ThinkingBlock))
            && View(d'.blocks) == Push(View(d.blocks), ThinkingContent(SummaryText(parts)))
    decreases |parts|
  {
    if parts != [] {
      var deltas, rest := ThinkingDeltas(parts[0].chunks), SummaryEvents(parts[1..]);
      var close := if parts[0].done then [ContentDone] else [];
      ThinkingRun(clean, d, parts[0].chunks);
      var d1 := RunFrom(clean, d, deltas);
      CloseThinking(clean, d1);
      var d2 := RunFrom(clean, d1, close);
      RunOne(clean, d1, ContentDone);
      RunConcat(clean, d, deltas, close);
      RunConcat(clean, d, deltas + close, rest);
      SummaryRun(clean, d2, parts[1..]);
      PushPush(View(d.blocks), Concat(parts[0].chunks), SummaryText(parts[1..]));
    }
  }

  // ---------------------------------------------------------------- text

  /** Partway through a text part: `t` of it has been shown after the contents `w`. */
  predicate Showing(d: Doc, w: seq<Content>, t: string) {
    && Calm(d)
    && (if t == "" then !d.open else OpenKind(d, TextBlock))
    && View(d.blocks) == if t == "" then w else w + [TextContent(t)]
  }

  lemma GrowText(d: Doc, w: seq<Content>, t: string, c: string)
    requires Showing(d, w, t) && t != ""
    ensures View(WithDelta(d, TextPart(c)).blocks) == w + [TextContent(t + c)]
    ensures OpenKind(WithDelta(d, TextPart(c)), TextBlock)
  {
    var n := |d.blocks| - 1;
    var b := d.blocks[n];
    var v := View(d.blocks[..n]);
    ContentAfterDelta(b, TextPart(c));
    assert WithDelta(d, TextPart(c)).blocks[..n] == d.blocks[..n];
    assert v + [TextContent(TextOf(b.deltas))] == w + [TextContent(t)];
    assert v == (v + [TextContent(TextOf(b.deltas))])[..|v|] == (w + [TextContent(t)])[..|w|] == w;
  }

  lemma FirstText(clean: Cleaner, d: Doc, w: seq<Content>, c: string)
    requires Showing(d, w, "") && c != ""
    ensures Showing(After(clean, d, TextDelta(c)), w, c)
  {
    var b' := Block(TextBlock, [TextPart(c)]);
    assert [] + [TextPart(c)] == [TextPart(c)];
    assert After(clean, d, TextDelta(c)).blocks == d.blocks + [b'];
    assert TextOf([TextPart(c)]) == TextOf([]) + c == c;
    ViewAppend(d.blocks, b');
  }

  lemma TextStep(clean: Cleaner, d: Doc, w: seq<Content>, t: string, c: string)
    requires Showing(d, w, t)
    ensures Showing(After(clean, d, TextDelta(c)), w, t + c)
  {
    if c == "" {
      assert t + c == t;
    } else if t == "" {
      FirstText(clean, d, w, c);
      assert t + c == c;
    } else {
      GrowText(d, w, t, c);
      hide View;
      assert After(clean, d, TextDelta(c)) == WithDelta(d, TextPart(c));
    }
  }

  lemma TextRunning(d: Doc, w: seq<Content>, t: string)
    requires Showing(d, w, t)
    ensures d.ended == Running
  {
  }

  lemma {:induction false} TextRun(clean: Cleaner, d: Doc, w: seq<Content>, t: string, chunks: seq<string>)
    requires Showing(d, w, t)
    ensures Showing(RunFrom(clean, d, TextDeltas(chunks)), w, t + Concat(chunks))
    decreases |chunks|
  {
    hide Showing, After;
    if chunks == [] {
      assert t + "" == t;
    } else {
      TextRunning(d, w, t);
      TextStep(clean, d, w, t, chunks[0]);
      assert TextDeltas(chunks)[1..] == TextDeltas(chunks[1..]);
      TextRun(clean, After(clean, d, TextDelta(chunks[0])), w, t + chunks[0], chunks[1..]);
      assert t + chunks[0] + Concat(chunks[1..]) == t + Concat(chunks);
    }
  }

  lemma NoTextYet(d: Doc)
    requires Calm(d) && !d.open
    ensures Showing(d, View(d.blocks), "")
  {
  }

  lemma NoEffect(clean: Cleaner, d: Doc)
    ensures After(clean, d, OtherEvent) == d
  {
  }

  lemma TextPartDone(clean: Cleaner, d: Doc, w: seq<Content>, t: string)
    requires Showing(d, w, t)
    ensures d.ended == Running
    ensures var d' := After(clean, d, ContentDone);
            Calm(d') && !d'.open && View(d'.blocks) == PushAll(w, if t != "" then [TextContent(t)] else [])
  {
    CloseThinking(clean, d);
    if t != "" {
      assert [TextContent(t)][1..] == [];
    }
  }

  lemma {:induction false} MessageRun(clean: Cleaner, d: Doc, parts: seq<MessagePart>)
    requires Calm(d) && !d.open
    ensures var d' := RunFrom(clean, d, MessageEvents(parts));
            Calm(d') && !d'.open && View(d'.blocks) == PushAll(View(d.blocks), MessageContents(parts))
    decreases |parts|
  {
    if parts != [] {
      hide After, Closed, Showing, TextDeltas, View, Concat;
      var rest := MessageEvents(parts[1..]);
      if parts[0].OutputText? {
        var deltas := TextDeltas(parts[0].chunks);
        var text := Concat(parts[0].chunks);
        NoTextYet(d);
        TextRun(clean, d, View(d.blocks), "", parts[0].chunks);
        assert "" + text == text;
        var d1 := RunFrom(clean, d, deltas);
        TextPartDone(clean, d1, View(d.blocks), text);
        RunOne(clean, d1, ContentDone);
        RunConcat(clean, d, deltas, [ContentDone]);
        RunConcat(clean, d, deltas + [ContentDone], rest);
        MessageRun(clean, After(clean, d1, ContentDone), parts[1..]);
        PushAllConcat(View(d.blocks), if text != "" then [TextContent(text)] else [], MessageContents(parts[1..]));
      } else {
        RunOne(clean, d, OtherEvent);
        NoEffect(clean, d);
        RunConcat(clean, d, [OtherEvent], rest);
        MessageRun(clean, d, parts[1..]);
        assert MessageContents(parts) == MessageContents(parts[1..]);
      }
    }
  }

  // ---------------------------------------------------------------- function calls

  lemma {:induction false} ToolRun(clean: Cleaner, d: Doc, chunks: seq<string>)
    requires d.ended == Running
    ensures RunFrom(clean, d, ToolDeltas(chunks)) == d.(buffer := d.buffer + Concat(chunks))
    decreases |chunks|
  {
    if chunks == [] {
      assert d.buffer + "" == d.buffer;
    } else {
      assert ToolDeltas(chunks)[1..] == ToolDeltas(chunks[1..]);
      ToolRun(clean, After(clean, d, ToolDelta(chunks[0])), chunks[1..]);
      assert d.buffer + chunks[0] + Concat(chunks[1..]) == d.buffer + Concat(chunks);
    }
  }

  /** A call, on any document that has not ended: its block is opened after the block before it is closed, and is closed
      over the tool input still waiting then, followed by its own. */
  lemma CallOnAny(clean: Cleaner, d: Doc, callID: string, name: string, arguments: seq<string>)
    requires d.ended == Running
    ensures var begun := Opened(clean, d, ToolBlock(FromCodexCallID(callID), name));
      RunFrom(clean, d, ItemEvents(FunctionCall(callID, name, arguments))) ==
        Closed(clean, begun.(buffer := begun.buffer + Concat(arguments)))
  {
    hide Closed;
    var added, tail := ItemAdded(FunctionCallItem(callID, name)), [OtherEvent, ItemDone];
    var d1 := After(clean, d, added);
    EndedByTerminal(clean, d, added);
    RunOne(clean, d, added);
    RunConcat(clean, d, [added], ToolDeltas(arguments));
    RunConcat(clean, d, [added] + ToolDeltas(arguments), tail);
    ToolRun(clean, d1, arguments);
    var d2 := d1.(buffer := d1.buffer + Concat(arguments));
    assert tail[1..] == [ItemDone];
    RunOne(clean, d2, ItemDone);
  }

  /** Between items, a call's block is closed over whatever tool input was still waiting, followed by its own. */
  lemma CallEvents(clean: Cleaner, d: Doc, callID: string, name: string, arguments: seq<string>)
    requires d.started && d.ended == Running && !d.open
    ensures RunFrom(clean, d, ItemEvents(FunctionCall(callID, name, arguments))) ==
      Closed(clean, d.(blocks := d.blocks + [Block(ToolBlock(FromCodexCallID(callID), name), [])], open := true,
                       buffer := d.buffer + Concat(arguments)))
  {
    CallOnAny(clean, d, callID, name, arguments);
    NothingToClose(clean, d);
    hide Closed, RunFrom, ItemEvents;
  }

  lemma NothingToClose(clean: Cleaner, d: Doc)
    requires !d.open && d.started
    ensures Closed(clean, Started(d)) == d
  {
  }

  lemma CallRun(clean: Cleaner, d: Doc, callID: string, name: string, arguments: seq<string>)
    requires Calm(d) && !d.open && clean("") == ""
    ensures var d' := RunFrom(clean, d, ItemEvents(FunctionCall(callID, name, arguments)));
            Calm(d') && !d'.open
            && View(d'.blocks) == PushAll(View(d.blocks), ItemContents(clean, FunctionCall(callID, name, arguments)))
  {
    CallEvents(clean, d, callID, name, arguments);
    hide RunFrom, ItemEvents;
    var kind := ToolBlock(FromCodexCallID(callID), name);
    var args := Concat(arguments);
    assert "" + args == args;
    var d2 := d.(blocks := d.blocks + [Block(kind, [])], open := true, buffer := args);
    var cleaned := clean(args);
    var b := Block(kind, if cleaned == "" then [] else [JsonPart(cleaned)]);
    assert [] + [JsonPart(cleaned)] == [JsonPart(cleaned)];
    assert Closed(clean, d2).blocks == d.blocks + [b];
    ViewAppend(d.blocks, b);
    if cleaned != "" {
      assert TextOf([JsonPart(cleaned)]) == TextOf([]) + cleaned == cleaned;
    }
  }

  // ---------------------------------------------------------------- agreement

  lemma ItemRun(clean: Cleaner, d: Doc, item: OutputItem)
    requires Calm(d) && !d.open && clean("") == ""
    ensures var d' := RunFrom(clean, d, ItemEvents(item));
            Calm(d') && !d'.open && View(d'.blocks) == PushAll(View(d.blocks), ItemContents(clean, item))
  {
    match item {
      case Reasoning(summary) =>
        var added, events := [ItemAdded(ReasoningItem)], SummaryEvents(summary);
        var d1 := After(clean, d, ItemAdded(ReasoningItem));
        assert d1.blocks == d.blocks + [Block(ThinkingBlock, [])];
        ViewAppend(d.blocks, Block(ThinkingBlock, []));
        RunOne(clean, d, ItemAdded(ReasoningItem));
        SummaryRun(clean, d1, summary);
        var d2 := RunFrom(clean, d1, events);
        CloseThinking(clean, d2);
        RunOne(clean, d2, ItemDone);
        RunConcat(clean, d, added, events);
        RunConcat(clean, d, added + events, [ItemDone]);
      case Message(parts) =>
        var added, events := [ItemAdded(MessageItem)], MessageEvents(parts);
        RunOne(clean, d, ItemAdded(MessageItem));
        MessageRun(clean, d, parts);
        var d2 := RunFrom(clean, d, events);
        RunOne(clean, d2, ItemDone);
        RunConcat(clean, d, added, events);
        RunConcat(clean, d, added + events, [ItemDone]);
      case FunctionCall(callID, name, arguments) =>
        CallRun(clean, d, callID, name, arguments);
      case UnknownItem =>
        RunOne(clean, d, ItemAdded(OtherItem));
        RunOne(clean, d, ItemDone);
        RunConcat(clean, d, [ItemAdded(OtherItem)], [ItemDone]);
        assert ItemEvents(item) == [ItemAdded(OtherItem)] + [ItemDone];
    }
  }

  lemma {:induction false} ItemsRun(clean: Cleaner, d: Doc, items: seq<OutputItem>)
    requires Calm(d) && !d.open && clean("") == ""
    ensures var d' := RunFrom(clean, d, AllEvents(items));
            Calm(d') && !d'.open && View(d'.blocks) == PushAll(View(d.blocks), BuiltContents(clean, items))
    decreases |items|
  {
    if items != [] {
      ItemRun(clean, d, items[0]);
      RunConcat(clean, d, ItemEvents(items[0]), AllEvents(items[1..]));
      ItemsRun(clean, RunFrom(clean, d, ItemEvents(items[0])), items[1..]);
      PushAllConcat(View(d.blocks), ItemContents(clean, items[0]), BuiltContents(clean, items[1..]));
    }
  }

  // ---------------------------------------------------------------- stop reasons

  ghost predicate HasCall(items: seq<OutputItem>) {
    exists i | 0 <= i < |items| :: items[i].FunctionCall?
  }

  ghost predicate OpensTool(e: Upstream) {
    e.ItemAdded? && e.item.FunctionCallItem?
  }

  lemma ClosedKinds(clean: Cleaner, d: Doc)
    ensures |Closed(clean, d).blocks| == |d.blocks|
    ensures forall i | 0 <= i < |d.blocks| :: Closed(clean, d).blocks[i].kind == d.blocks[i].kind
  {
  }

  lemma ToolAfterClose(clean: Cleaner, d: Doc)
    ensures HasTool(Closed(clean, d).blocks) <==> HasTool(d.blocks)
  {
    ClosedKinds(clean, d);
  }

  lemma ToolAfterOpen(clean: Cleaner, d: Doc, kind: BlockKind)
    ensures HasTool(Opened(clean, d, kind).blocks) <==> HasTool(d.blocks) || kind.ToolBlock?
  {
    ToolAfterClose(clean, Started(d));
    var c := Closed(clean, Started(d));
    var o := Opened(clean, d, kind);
    assert forall i | 0 <= i < |c.blocks| :: o.blocks[i] == c.blocks[i];
    assert o.blocks[|c.blocks|].kind == kind;
  }

  lemma ToolAfterDelta(d: Doc, delta: Delta)
    requires d.blocks != []
    ensures HasTool(WithDelta(d, delta).blocks) <==> HasTool(d.blocks)
  {
    assert forall i | 0 <= i < |d.blocks| :: WithDelta(d, delta).blocks[i].kind == d.blocks[i].kind;
  }

  lemma ToolAfterEvent(clean: Cleaner, d: Doc, e: Upstream)
    ensures HasTool(After(clean, d, e).blocks) <==> HasTool(d.blocks) || OpensTool(e)
  {
    hide HasTool;
    ToolAfterClose(clean, d);
    ToolAfterClose(clean, Started(d));
    match e {
      case ItemAdded(item) =>
        ToolAfterOpen(clean, d, ThinkingBlock);
        if item.FunctionCallItem? {
          ToolAfterOpen(clean, d, ToolBlock(FromCodexCallID(item.callID), item.name));
        }
      case TextDelta(t) =>
        ToolAfterExtend(clean, d, TextBlock, TextPart(t));
      case ThinkingDelta(t) =>
        ToolAfterExtend(clean, d, ThinkingBlock, ThinkingPart(t));
      case _ =>
    }
  }

  lemma ToolAfterExtend(clean: Cleaner, d: Doc, kind: BlockKind, delta: Delta)
    requires !kind.ToolBlock?
    ensures HasTool(Extended(clean, d, kind, delta).blocks) <==> HasTool(d.blocks)
  {
    hide HasTool;
    ToolAfterOpen(clean, d, kind);
    ToolAfterDelta(Opened(clean, d, kind), delta);
    if d.blocks != [] {
      ToolAfterDelta(Started(d), delta);
    }
  }

  lemma {:induction false} ToolAfterRun(clean: Cleaner, d: Doc, events: seq<Upstream>)
    requires d.ended == Running && forall k | 0 <= k < |events| :: !Terminal(events[k])
    ensures HasTool(RunFrom(clean, d, events).blocks) <==>
      HasTool(d.blocks) || exists k | 0 <= k < |events| :: OpensTool(events[k])
    decreases |events|
  {
    hide HasTool, OpensTool, After;
    if events != [] {
      ToolAfterEvent(clean, d, events[0]);
      EndedByTerminal(clean, d, events[0]);
      var rest := events[1..];
      ToolAfterRun(clean, After(clean, d, events[0]), rest);
      if k :| 0 <= k < |events| && OpensTool(events[k]) {
        assert k == 0 || rest[k - 1] == events[k];
      }
      if k :| 0 <= k < |rest| && OpensTool(rest[k]) {
        assert events[k + 1] == rest[k];
      }
    }
  }

  /** No tool block is opened and no terminal event comes. */
  ghost predicate Quiet(events: seq<Upstream>) {
    forall k | 0 <= k < |events| :: !OpensTool(events[k]) && !Terminal(events[k])
  }

  lemma {:induction false} SummaryQuiet(parts: seq<SummaryPart>)
    ensures Quiet(SummaryEvents(parts))
  {
    if parts != [] {
      SummaryQuiet(parts[1..]);
    }
  }

  lemma {:induction false} MessageQuiet(parts: seq<MessagePart>)
    ensures Quiet(MessageEvents(parts))
  {
    if parts != [] {
      MessageQuiet(parts[1..]);
    }
  }

  ghost predicate Opens(events: seq<Upstream>) {
    exists k | 0 <= k < |events| :: OpensTool(events[k])
  }

  ghost predicate Unending(events: seq<Upstream>) {
    forall k | 0 <= k < |events| :: !Terminal(events[k])
  }

  lemma OpensConcat(a: seq<Upstream>, b: seq<Upstream>)
    ensures Opens(a + b) <==> Opens(a) || Opens(b)
    ensures Unending(a + b) <==> Unending(a) && Unending(b)
  {
    var ab := a + b;
    assert forall k | 0 <= k < |a| :: ab[k] == a[k];
    assert forall k | 0 <= k < |b| :: ab[|a| + k] == b[k];
  }

  lemma ItemOpens(item: OutputItem)
    ensures Unending(ItemEvents(item))
    ensures Opens(ItemEvents(item)) <==> item.FunctionCall?
  {
    match item {
      case Reasoning(summary) => SummaryQuiet(summary);
      case Message(parts) => MessageQuiet(parts);
      case FunctionCall(_, _, _) => assert OpensTool(ItemEvents(item)[0]);
      case UnknownItem =>
    }
  }

  lemma {:induction false} ItemsOpen(items: seq<OutputItem>)
    ensures Unending(AllEvents(items))
    ensures Opens(AllEvents(items)) <==> HasCall(items)
  {
    hide Opens, Unending, ItemEvents;
    if items == [] {
      NothingOpens();
    } else {
      ItemOpens(items[0]);
      ItemsOpen(items[1..]);
      OpensConcat(ItemEvents(items[0]), AllEvents(items[1..]));
      if i :| 0 <= i < |items| && items[i].FunctionCall? {
        assert i == 0 || items[1..][i - 1] == items[i];
      }
      if i :| 0 <= i < |items[1..]| && items[1..][i].FunctionCall? {
        assert items[i + 1] == items[1..][i];
      }
    }
  }

  lemma NothingOpens()
    ensures !Opens([]) && Unending([])
  {
  }

  lemma ItemToolContent(clean: Cleaner, item: OutputItem)
    ensures EndsWithTool(ItemContents(clean, item)) ==> item.FunctionCall?
  {
    if item.Message? {
      NoToolInMessage(item.parts);
    }
  }

  lemma EndsWithToolConcat(a: seq<Content>, b: seq<Content>)
    ensures EndsWithTool(a + b) ==> EndsWithTool(a) || EndsWithTool(b)
  {
    assert b == [] ==> a + b == a;
  }

  lemma {:induction false} ToolContentFromCall(clean: Cleaner, items: seq<OutputItem>)
    ensures EndsWithTool(BuiltContents(clean, items)) ==> HasCall(items)
  {
    hide ItemContents, EndsWithTool;
    if items == [] {
      NoTool();
    } else {
      ToolContentFromCall(clean, items[1..]);
      ItemToolContent(clean, items[0]);
      EndsWithToolConcat(ItemContents(clean, items[0]), BuiltContents(clean, items[1..]));
      if HasCall(items[1..]) {
        var i :| 0 <= i < |items[1..]| && items[1..][i].FunctionCall?;
        assert items[i + 1].FunctionCall?;
      }
    }
  }

  lemma NoTool()
    ensures !EndsWithTool([])
  {
  }

  lemma {:induction false} NoToolInMessage(parts: seq<MessagePart>)
    ensures !EndsWithTool(MessageContents(parts))
  {
    if parts != [] {
      NoToolInMessage(parts[1..]);
    }
  }

  /** The whole response, one event at a time: the items, then the terminal event. */
  lemma ResponseRun(clean: Cleaner, items: seq<OutputItem>, finish: Finish, usage: OptionalUsage) returns (d0: Doc,
                    d1: Doc)
    requires clean("") == ""
    ensures Calm(d0) && !d0.open && d0.blocks == [] && d1 == RunFrom(clean, d0, AllEvents(items))
    ensures Calm(d1) && !d1.open && View(d1.blocks) == PushAll([], BuiltContents(clean, items))
    ensures Document(clean, ResponseEvents(items, finish, usage)) == After(clean, d1, Completed(finish, usage))
  {
    d0 := After(clean, EMPTY_DOC, Created);
    RunOne(clean, EMPTY_DOC, Created);
    RunConcat(clean, EMPTY_DOC, [Created], AllEvents(items));
    RunConcat(clean, EMPTY_DOC, [Created] + AllEvents(items), [Completed(finish, usage)]);
    ItemsRun(clean, d0, items);
    d1 := RunFrom(clean, d0, AllEvents(items));
    RunOne(clean, d1, Completed(finish, usage));
    EndedByTerminal(clean, d1, Completed(finish, usage));
  }

  /** However the upstream cuts its texts into deltas, the content a client reassembles from the stream is
      the builder's content, up to dropping empty thinking and joining neighbouring thinking. */
  lemma StreamAgreesWithBatch(clean: Cleaner, items: seq<OutputItem>, finish: Finish, usage: OptionalUsage)
    requires clean("") == ""
    ensures View(Document(clean, ResponseEvents(items, finish, usage)).blocks) ==
      PushAll([], BuiltContents(clean, items))
  {
    var d0, d1 := ResponseRun(clean, items, finish, usage);
    assert Closed(clean, Started(d1)) == d1 by {
      NothingToClose(clean, d1);
    }
  }

  lemma StreamedStop(clean: Cleaner, items: seq<OutputItem>, finish: Finish, usage: OptionalUsage)
    requires clean("") == ""
    ensures var d := Document(clean, ResponseEvents(items, finish, usage));
            d.ended == Ended(StopFor(finish, HasCall(items)), if usage.Reported? then usage.usage else NO_USAGE)
  {
    var d0, d1 := ResponseRun(clean, items, finish, usage);
    hide Document, ResponseEvents, AllEvents, RunFrom, View, Closed;
    ItemsOpen(items);
    ToolAfterRun(clean, d0, AllEvents(items));
    ToolAfterClose(clean, Started(d1));
  }

  /** Streaming and non-streaming name the same stop reason exactly when the response was cut at the token
      limit, or holds no function call, or ended whole with its last content block being one. */
  lemma StopReasonsAgree(clean: Cleaner, items: seq<OutputItem>, finish: Finish, usage: OptionalUsage)
    requires clean("") == ""
    ensures Document(clean, ResponseEvents(items, finish, usage)).ended.Ended?
    ensures Document(clean, ResponseEvents(items, finish, usage)).ended.stop == BuiltStop(clean, items, finish)
      <==> finish == CutAtMaxTokens || !HasCall(items) || (finish == Whole && EndsWithTool(BuiltContents(clean, items)))
  {
    StreamedStop(clean, items, finish, usage);
    ToolContentFromCall(clean, items);
  }

  /** A call followed by text: the stream says tool_use, the builder end_turn. */
  lemma StopReasonsCanDiffer(clean: Cleaner)
    requires clean("") == ""
    ensures var items := [FunctionCall("call_1", "f", ["{}"]), Message([OutputText(["hi"])])];
            Document(clean, ResponseEvents(items, Whole, NoUsage)).ended == Ended(ToolUse, NO_USAGE)
            && BuiltStop(clean, items, Whole) == EndTurn
  {
    var items := [FunctionCall("call_1", "f", ["{}"]), Message([OutputText(["hi"])])];
    StreamedStop(clean, items, Whole, NoUsage);
    assert HasCall(items) by {
      assert items[0].FunctionCall?;
    }
    assert items[1..] == [Message([OutputText(["hi"])])];
    assert Concat(["hi"]) == "hi" by {
      assert ["hi"][1..] == [];
    }
    assert MessageContents([OutputText(["hi"])]) == [TextContent("hi")];
    assert BuiltContents(clean, items[1..]) == [TextContent("hi")];
  }
}
