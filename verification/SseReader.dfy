/** ReadSSEStream as the loop it is: chunks appended to a line buffer, complete lines consumed from its
    front, the buffer compacted, and payloads handed to a callback. */
module SseReader {
  import opened EventStream

  /** The growing byte buffer behind lineBuf: a slice `lo..hi` of a backing array. */
  class LineBuffer {
    var data: array<byte>
    var lo: nat
    var hi: nat

    ghost predicate Valid()
      reads this
    {
      lo <= hi <= data.Length
    }

    function Contents(): Bytes
      requires Valid()
      reads this, data
    {
      data[lo..hi]
    }

    /** A pooled buffer, emptied: its old bytes remain behind the slice. */
    constructor (pooled: array<byte>)
      ensures Valid() && Contents() == [] && data == pooled
    {
      data, lo, hi := pooled, 0, 0;
    }

    method Append(chunk: Bytes)
      requires Valid()
      modifies this, data
      ensures Valid() && Contents() == old(Contents()) + chunk
      ensures data == old(data) || fresh(data)
    {
      if hi + |chunk| > data.Length {
        MoveTo(2 * (hi - lo) + |chunk|);
      }
      forall i | 0 <= i < |chunk| {
        data[hi + i] := chunk[i];
      }
      hi := hi + |chunk|;
    }

    /** The remaining bytes copied to the head of a new backing array. */
    method MoveTo(capacity: nat)
      requires Valid() && hi - lo <= capacity
      modifies this
      ensures Valid() && Contents() == old(Contents()) && lo == 0 && data.Length == capacity && fresh(data)
    {
      var moved := new byte[capacity](_ => 0);
      forall i | 0 <= i < hi - lo {
        moved[i] := data[lo + i];
      }
      data, lo, hi := moved, 0, hi - lo;
    }

    /** The index of the first line feed, or -1. */
    method IndexOfLf() returns (idx: int)
      requires Valid()
      ensures -1 <= idx < |Contents()|
      ensures idx == -1 ==> LF !in Contents()
      ensures idx >= 0 ==> Contents()[idx] == LF && LF !in Contents()[..idx]
    {
      idx := 0;
      while lo + idx < hi
        invariant 0 <= idx <= hi - lo
        invariant LF !in Contents()[..idx]
      {
        if data[lo + idx] == LF {
          return;
        }
        assert Contents()[..idx + 1] == Contents()[..idx] + [data[lo + idx]];
        idx := idx + 1;
      }
      assert Contents()[..idx] == Contents();
      idx := -1;
    }

    method Drop(n: nat)
      requires Valid() && n <= |Contents()|
      modifies this`lo
      ensures Valid() && Contents() == old(Contents())[n..]
    {
      lo := lo + n;
    }

    /** Once little of a large buffer is left, the rest moves to a smaller array. */
    method Compact()
      requires Valid()
      modifies this
      ensures Valid() && Contents() == old(Contents())
      ensures data == old(data) || fresh(data)
    {
      var capacity := data.Length - lo;
      if hi - lo > 0 && capacity > 4096 && hi - lo < capacity / 4 {
        MoveTo(capacity / 2);
      }
    }
  }

  // ---------------------------------------------------------------- the reader

  datatype ReadError = NoError | Eof | Failed

  /** One call of Read: possibly no bytes, possibly bytes together with the error. */
  datatype ReadResult = ReadResult(bytes: Bytes, err: ReadError)

  /** A body as the results its Read calls will return; after them it is at its end. */
  class Body {
    var results: seq<ReadResult>

    constructor (results: seq<ReadResult>)
      ensures this.results == results
    {
      this.results := results;
    }

    method Read() returns (r: ReadResult)
      modifies this
      ensures old(results) == [] ==> r == ReadResult([], Eof) && results == []
      ensures old(results) != [] ==> r == old(results)[0] && results == old(results)[1..]
    {
      if results == [] {
        return ReadResult([], Eof);
      }
      r := results[0];
      results := results[1..];
    }
  }

  /** The bytes a body will yield before it ends or breaks. */
  function Text(results: seq<ReadResult>): Bytes {
    if results == [] then []
    else if results[0].err != NoError then results[0].bytes
    else results[0].bytes + Text(results[1..])
  }

  function EndingOf(results: seq<ReadResult>): Ending {
    if results == [] then AtEof
    else if results[0].err == NoError then EndingOf(results[1..])
    else if results[0].err == Eof then AtEof
    else Broken
  }

  /** Reads go on to the first that reports an error, whose bytes still count; the input is broken exactly when that is
      not the end of the body. */
  lemma {:induction false} ReadsToFirstError(before: seq<ReadResult>, last: ReadResult, after: seq<ReadResult>)
    requires (forall i | 0 <= i < |before| :: before[i].err == NoError) && last.err != NoError
    ensures Text(before + [last] + after) == Text(before) + last.bytes
    ensures EndingOf(before + [last] + after) == Broken <==> last.err == Failed
    ensures EndingOf(before) == AtEof
  {
    var all := before + [last] + after;
    if before == [] {
      assert all[0] == last && [] + last.bytes == last.bytes;
    } else {
      assert all[1..] == before[1..] + [last] + after;
      ReadsToFirstError(before[1..], last, after);
      assert before[0].bytes + (Text(before[1..]) + last.bytes) == before[0].bytes + Text(before[1..]) + last.bytes;
    }
  }

  /** Splitting one read in two, at any point, changes nothing. */
  lemma SplitRead(before: seq<ReadResult>, a: Bytes, b: Bytes, err: ReadError, after: seq<ReadResult>)
    ensures Text(before + [ReadResult(a, NoError), ReadResult(b, err)] + after) ==
      Text(before + [ReadResult(a + b, err)] + after)
    ensures EndingOf(before + [ReadResult(a, NoError), ReadResult(b, err)] + after) ==
      EndingOf(before + [ReadResult(a + b, err)] + after)
  {
    var two := [ReadResult(a, NoError), ReadResult(b, err)];
    var one := [ReadResult(a + b, err)];
    if before == [] {
      assert (before + two + after)[1..] == [ReadResult(b, err)] + after;
      assert ([ReadResult(b, err)] + after)[1..] == after;
      assert (before + one + after)[1..] == after;
      assert a + (b + Text(after)) == a + b + Text(after);
    } else {
      assert (before + two + after)[1..] == before[1..] + two + after;
      assert (before + one + after)[1..] == before[1..] + one + after;
      SplitRead(before[1..], a, b, err, after);
    }
  }

  /** What remains to be delivered once `done` is out, `pending` data lines are collected and `text` is unread. */
  ghost function Remaining(keep: Callback, text: Bytes, ending: Ending, pending: seq<Bytes>,
                           done: seq<Bytes>): Delivery {
    Deliver(keep, Payloads(Tail(text, ending), pending), done)
  }

  /** Consuming one line. */
  lemma LineStep(keep: Callback, line: Bytes, rest: Bytes, ending: Ending, pending: seq<Bytes>, done: seq<Bytes>)
    requires LF !in line
    ensures Remaining(keep, line + [LF] + rest, ending, pending, done) ==
      match Classify(line)
      case Data(d) => Remaining(keep, rest, ending, pending + [d], done)
      case Ignored => Remaining(keep, rest, ending, pending, done)
      case Blank =>
        if pending == [] then Remaining(keep, rest, ending, [], done)
        else if Join(pending) == DONE then Delivery(done, true)
        else if !keep(done + [Join(pending)]) then Delivery(done + [Join(pending)], true)
        else Remaining(keep, rest, ending, [], done + [Join(pending)])
  {
    FirstTailLine(line, rest, ending);
    var tail := Tail(rest, ending);
    assert ([line] + tail)[1..] == tail;
    if Classify(line).Blank? && pending != [] {
      assert ([Join(pending)] + Payloads(tail, []))[1..] == Payloads(tail, []);
    } else if Classify(line).Blank? {
      assert [] + Payloads(tail, []) == Payloads(tail, []);
    }
  }

  /** The end of the input: the unfinished line counts, and a pending event is dispatched. */
  lemma EndStep(keep: Callback, line: Bytes, pending: seq<Bytes>, done: seq<Bytes>)
    requires LF !in line
    ensures var last := if Classify(line).Data? then pending + [Classify(line).payload] else pending;
            Remaining(keep, line, AtEof, pending, done) ==
              if last == [] then Delivery(done, false)
              else if Join(last) == DONE then Delivery(done, true)
              else Delivery(done + [Join(last)], !keep(done + [Join(last)]))
  {
    LastLine(line);
    var blank: seq<Bytes> := [[]];
    assert Tail(line, AtEof)[1..] == blank;
    assert blank[1..] == [];
    var last := if Classify(line).Data? then pending + [Classify(line).payload] else pending;
    assert Payloads(blank, last) == (if last == [] then [] else [Join(last)]) + [];
    assert Payloads(Tail(line, AtEof), pending) == if last == [] then [] else [Join(last)];
    if last != [] {
      var only: seq<Bytes> := [Join(last)];
      assert only[1..] == [];
      assert Deliver(keep, only, done) ==
        if only[0] == DONE then Delivery(done, true)
        else if !keep(done + only) then Delivery(done + only, true)
        else Deliver(keep, [], done + only);
    }
  }

  lemma BrokenStep(keep: Callback, line: Bytes, pending: seq<Bytes>, done: seq<Bytes>)
    requires LF !in line
    ensures Remaining(keep, line, Broken, pending, done) == Delivery(done, false)
  {
    LastLine(line);
  }

  // ---------------------------------------------------------------- the loop

  /** emitEvent: dispatches the collected data lines, if any; `go` is its answer. */
  method EmitEvent(keep: Callback, dataLines: seq<Bytes>, delivered: seq<Bytes>) returns (out: seq<Bytes>, go: bool)
    ensures dataLines == [] ==> out == delivered && go
    ensures dataLines != [] && Join(dataLines) == DONE ==> out == delivered && !go
    ensures dataLines != [] && Join(dataLines) != DONE ==> out == delivered + [Join(dataLines)] && go == keep(out)
  {
    if dataLines == [] {
      return delivered, true;
    }
    var data := Join(dataLines);
    if data == DONE {
      return delivered, false;
    }
    out := delivered + [data];
    go := keep(out);
  }

  /** The data line a line contributes, if it is one. */
  method DataOf(line: Bytes, dataLines: seq<Bytes>) returns (out: seq<Bytes>)
    ensures out == if DATA <= line
                   then dataLines + [if |line| > 5 && line[5] == SPACE then line[6..] else line[5..]]
                   else dataLines
  {
    out := dataLines;
    if DATA <= line {
      var data := line[5..];
      if |data| > 0 && data[0] == SPACE {
        data := data[1..];
      }
      out := dataLines + [data];
    }
  }

  /** One complete line: a blank one dispatches, a comment is skipped, a data line is collected. */
  method TakeLine(keep: Callback, raw: Bytes, dataLines: seq<Bytes>, delivered: seq<Bytes>, ghost rest: Bytes,
                  ghost ending: Ending)
      returns (lines: seq<Bytes>, out: seq<Bytes>, go: bool)
    requires LF !in raw
    ensures Remaining(keep, raw + [LF] + rest, ending, dataLines, delivered) ==
      if go then Remaining(keep, rest, ending, lines, out) else Delivery(out, true)
  {
    hide Tail, Payloads, Deliver, Remaining;
    LineStep(keep, raw, rest, ending, dataLines, delivered);
    var line := TrimCr(raw);
    lines, out, go := dataLines, delivered, true;
    if |line| == 0 {
      out, go := EmitEvent(keep, dataLines, delivered);
      lines := [];
      return;
    }
    if line[0] == COLON {
      return;
    }
    lines := DataOf(line, dataLines);
  }

  /** Consumes every complete line at the front of the buffer. */
  method TakeLines(keep: Callback, lineBuf: LineBuffer, dataLines: seq<Bytes>, delivered: seq<Bytes>,
                   ghost rest: Bytes, ghost ending: Ending)
      returns (lines: seq<Bytes>, out: seq<Bytes>, go: bool)
    requires lineBuf.Valid()
    modifies lineBuf`lo
    ensures lineBuf.Valid()
    ensures go ==> LF !in lineBuf.Contents()
    ensures Remaining(keep, old(lineBuf.Contents()) + rest, ending, dataLines, delivered) ==
      if go then Remaining(keep, lineBuf.Contents() + rest, ending, lines, out) else Delivery(out, true)
  {
    hide Tail, Payloads, Deliver, Remaining;
    ghost var goal := Remaining(keep, lineBuf.Contents() + rest, ending, dataLines, delivered);
    lines, out, go := dataLines, delivered, true;
    var idx := lineBuf.IndexOfLf();
    while idx >= 0
      invariant lineBuf.Valid() && -1 <= idx < |lineBuf.Contents()| && go
      invariant idx == -1 ==> LF !in lineBuf.Contents()
      invariant idx >= 0 ==> lineBuf.Contents()[idx] == LF && LF !in lineBuf.Contents()[..idx]
      invariant Remaining(keep, lineBuf.Contents() + rest, ending, lines, out) == goal
      decreases |lineBuf.Contents()|
    {
      ghost var text := lineBuf.Contents();
      var raw := lineBuf.data[lineBuf.lo..lineBuf.lo + idx];
      assert raw == text[..idx];
      lineBuf.Drop(idx + 1);
      assert text + rest == raw + [LF] + (lineBuf.Contents() + rest);
      lines, out, go := TakeLine(keep, raw, lines, out, lineBuf.Contents() + rest, ending);
      if !go {
        return;
      }
      idx := lineBuf.IndexOfLf();
    }
  }

  lemma DataLineOf(raw: Bytes)
    ensures Classify(raw).Data? <==> DATA <= TrimCr(raw)
    ensures Classify(raw).Data? ==> var line := TrimCr(raw);
              Classify(raw).payload == if |line| > 5 && line[5] == SPACE then line[6..] else line[5..]
  {
  }

  /** What is left when the body has ended: a last line without line end, then the pending event. */
  method Finish(keep: Callback, lineBuf: LineBuffer, pending: seq<Bytes>,
                before: seq<Bytes>) returns (delivered: seq<Bytes>)
    requires lineBuf.Valid() && LF !in lineBuf.Contents()
    ensures delivered == Remaining(keep, lineBuf.Contents(), AtEof, pending, before).delivered
  {
    hide Tail, Payloads, Deliver, Remaining, Classify;
    EndStep(keep, lineBuf.Contents(), pending, before);
    DataLineOf(lineBuf.Contents());
    var dataLines := pending;
    if lineBuf.hi > lineBuf.lo {
      var line := TrimCr(lineBuf.data[lineBuf.lo..lineBuf.hi]);
      dataLines := DataOf(line, pending);
    }
    var go;
    delivered, go := EmitEvent(keep, dataLines, before);
  }

  lemma StartStep(keep: Callback, text: Bytes, ending: Ending)
    ensures OneShot(keep, text, ending) == Remaining(keep, text, ending, [], [])
  {
  }

  /** Reads until the body ends or breaks, the end marker is met, or the callback declines. The error is
      reported only when nothing stopped the stream before it. */
  method ReadSSEStream(body: Body, pooled: array<byte>, keep: Callback) returns (delivered: seq<Bytes>, failed: bool)
    modifies body, pooled
    ensures var d := OneShot(keep, Text(old(body.results)), EndingOf(old(body.results)));
            delivered == d.delivered && failed == (EndingOf(old(body.results)) == Broken && !d.stopped)
  {
    hide Tail, Payloads, Deliver, Remaining, Classify;
    var lineBuf := new LineBuffer(pooled);
    var dataLines: seq<Bytes> := [];
    delivered := [];
    ghost var ending := EndingOf(body.results);
    ghost var goal := OneShot(keep, Text(body.results), ending);
    assert lineBuf.Contents() + Text(body.results) == Text(body.results);
    StartStep(keep, Text(body.results), ending);
    while true
      invariant lineBuf.Valid() && fresh(lineBuf) && (lineBuf.data == pooled || fresh(lineBuf.data))
      invariant EndingOf(body.results) == ending
      invariant LF !in lineBuf.Contents()
      invariant Remaining(keep, lineBuf.Contents() + Text(body.results), ending, dataLines, delivered) == goal
      decreases |body.results|
    {
      ghost var unread := Text(body.results);
      var r := body.Read();
      ghost var rest := if r.err == NoError then Text(body.results) else [];
      ghost var was := lineBuf.Contents();
      assert unread == r.bytes + rest;
      if |r.bytes| > 0 {
        lineBuf.Append(r.bytes);
        var go;
        assert was + (r.bytes + rest) == lineBuf.Contents() + rest;
        dataLines, delivered, go := TakeLines(keep, lineBuf, dataLines, delivered, rest, ending);
        if !go {
          return delivered, false;
        }
        lineBuf.Compact();
      } else {
        assert was + (r.bytes + rest) == lineBuf.Contents() + rest;
      }
      if r.err != NoError {
        assert lineBuf.Contents() + [] == lineBuf.Contents();
        if r.err == Failed {
          BrokenStep(keep, lineBuf.Contents(), dataLines, delivered);
          return delivered, true;
        }
        delivered := Finish(keep, lineBuf, dataLines, delivered);
        return delivered, false;
      }
    }
  }

  // ---------------------------------------------------------------- the writer

  /** SSEWriter over an accepting connection: what has been written, and whether it was closed. */
  class SSEWriter {
    var written: Bytes
    var done: bool

    constructor ()
      ensures written == [] && !done
    {
      written, done := [], false;
    }

    method WriteEvent(payload: Bytes)
      modifies `written
      ensures written == if done then old(written) else old(written) + Printed(payload)
    {
      if done {
        return;
      }
      written := written + PREFIX + payload + [LF, LF];
      assert written == old(written) + Printed(payload);
    }

    method Close()
      modifies `done
      ensures done
    {
      done := true;
    }
  }

  lemma {:induction false} PrintedAppend(ps: seq<Bytes>, p: Bytes)
    ensures PrintedAll(ps + [p]) == PrintedAll(ps) + Printed(p)
  {
    if ps == [] {
      assert ([] + [p])[1..] == [];
    } else {
      assert (ps + [p])[1..] == ps[1..] + [p];
      PrintedAppend(ps[1..], p);
    }
  }

  /** Whatever is written through an SSEWriter comes out of ReadSSEStream again, however the bytes are cut
      into reads, exactly when every payload is clean. */
  method WriteThenRead(ps: seq<Bytes>, results: seq<ReadResult>, pooled: array<byte>,
                       keep: Callback) returns (delivered: seq<Bytes>)
    requires forall h :: keep(h)
    requires Text(results) == PrintedAll(ps) && EndingOf(results) == AtEof
    modifies pooled
    ensures delivered == ps <==> AllClean(ps)
  {
    var w := new SSEWriter();
    for i := 0 to |ps|
      invariant w.written == PrintedAll(ps[..i]) && !w.done
    {
      assert ps[..i + 1] == ps[..i] + [ps[i]];
      PrintedAppend(ps[..i], ps[i]);
      w.WriteEvent(ps[i]);
    }
    assert ps[..|ps|] == ps;
    var body := new Body(results);
    var failed;
    delivered, failed := ReadSSEStream(body, pooled, keep);
    RoundTrip(keep, ps);
  }
}
