/** What the bytes of an event stream mean, told without the reader: the characters on the wire, which lines count,
    what an event's lines add up to, that every payload can be sent, and where delivery stops. */
module EventFormat {
  import opened EventStream

  // ---------------------------------------------------------------- characters

  function AsText(bytes: Bytes): string {
    seq(|bytes|, i requires 0 <= i < |bytes| => bytes[i] as int as char)
  }

  lemma WireCharacters()
    ensures AsText(DATA) == "data:" && AsText(PREFIX) == "data: " && AsText(DONE) == "[DONE]"
    ensures AsText([LF]) == "\n" && AsText([CR]) == "\r" && AsText([SPACE]) == " " && AsText([COLON]) == ":"
  {
  }

  ghost predicate AllCr(bytes: Bytes) {
    forall i | 0 <= i < |bytes| :: bytes[i] == CR
  }

  predicate EndsWithCr(line: Bytes) {
    line != [] && line[|line| - 1] == CR
  }

  /** Exactly the carriage returns at the end of a line are dropped. */
  lemma {:induction false} TrimExactly(line: Bytes)
    ensures var kept := TrimCr(line);
      kept <= line && AllCr(line[|kept|..]) && !EndsWithCr(kept)
    ensures TrimCr(line) == line <==> !EndsWithCr(line)
  {
    if EndsWithCr(line) {
      var init := line[..|line| - 1];
      TrimExactly(init);
      var kept := TrimCr(init);
      assert forall i | |kept| <= i < |init| :: line[i] == init[|kept|..][i - |kept|];
    }
  }

  lemma {:induction false} TrimAfterData(rest: Bytes)
    ensures TrimCr(DATA + rest) == DATA + TrimCr(rest)
  {
    if EndsWithCr(rest) {
      assert (DATA + rest)[..|DATA + rest| - 1] == DATA + rest[..|rest| - 1];
      TrimAfterData(rest[..|rest| - 1]);
    } else {
      assert rest == [] ==> DATA + rest == DATA;
    }
  }

  /** A data line holds what follows its field name, without trailing CRs and without one space in front. */
  lemma DataLine(rest: Bytes)
    ensures var value := TrimCr(rest);
      Classify(DATA + rest) == Data(if value != [] && value[0] == SPACE then value[1..] else value)
  {
    TrimAfterData(rest);
    var line := DATA + TrimCr(rest);
    assert line[..5] == DATA && line[5..] == TrimCr(rest);
    assert |line| > 5 ==> line[6..] == TrimCr(rest)[1..];
  }

  /** A line of nothing but CRs is blank; every line with anything else and another field name is ignored, comments
      included. */
  lemma OtherLine(raw: Bytes)
    requires !(DATA <= raw)
    ensures Classify(raw) == if AllCr(raw) then Blank else Ignored
  {
    TrimExactly(raw);
    var kept := TrimCr(raw);
    assert DATA <= kept ==> DATA <= raw;
    if kept != [] {
      assert kept[|kept| - 1] != CR && raw[|kept| - 1] == kept[|kept| - 1];
    } else {
      assert raw[0..] == raw;
    }
  }

  // ---------------------------------------------------------------- payloads of several lines

  lemma {:induction false} PiecesOfMore(text: Bytes, line: Bytes)
    requires LF !in line
    ensures Pieces(text + [LF] + line) == Pieces(text) + [line]
  {
    var more := text + [LF] + line;
    if text == [] {
      assert more[1..] == line;
      LastLine(line);
    } else {
      assert more[1..] == text[1..] + [LF] + line;
      PiecesOfMore(text[1..], line);
    }
  }

  /** Lines joined to a payload are found again by cutting it at its line feeds. */
  lemma {:induction false} JoinedAreFound(parts: seq<Bytes>)
    requires parts != [] && forall i | 0 <= i < |parts| :: LF !in parts[i]
    ensures Pieces(Join(parts)) == parts
  {
    var init, last := parts[..|parts| - 1], parts[|parts| - 1];
    if init == [] {
      LastLine(last);
      assert parts == [last];
    } else {
      JoinedAreFound(init);
      PiecesOfMore(Join(init), last);
      assert init + [last] == parts;
    }
  }

  lemma {:induction false} PiecesHaveNoLf(text: Bytes)
    ensures forall i | 0 <= i < |Pieces(text)| :: LF !in Pieces(text)[i]
  {
    if text != [] {
      PiecesHaveNoLf(text[1..]);
    }
  }

  lemma {:induction false} JoinFront(first: Bytes, rest: seq<Bytes>)
    requires rest != []
    ensures Join([first] + rest) == first + [LF] + Join(rest)
  {
    var all := [first] + rest;
    if |rest| == 1 {
      assert all[..1] == [first];
    } else {
      assert all[..|all| - 1] == [first] + rest[..|rest| - 1];
      JoinFront(first, rest[..|rest| - 1]);
    }
  }

  lemma JoinFirstByte(first: Bytes, rest: seq<Bytes>, b: byte)
    ensures Join([[b] + first] + rest) == [b] + Join([first] + rest)
  {
    if rest != [] {
      JoinFront(first, rest);
      JoinFront([b] + first, rest);
      assert [b] + first + [LF] + Join(rest) == [b] + (first + [LF] + Join(rest));
    }
  }

  /** And the lines of a payload are joined to that payload. */
  lemma {:induction false} FoundAreJoined(text: Bytes)
    ensures Join(Pieces(text)) == text
  {
    if text == [] {
      assert Pieces(text) == [[]];
    } else {
      hide Join;
      var rest := Pieces(text[1..]);
      FoundAreJoined(text[1..]);
      assert text == [text[0]] + text[1..];
      if text[0] == LF {
        JoinFront([], rest);
        assert [] + [LF] + Join(rest) == [LF] + Join(rest);
      } else {
        JoinFirstByte(rest[0], rest[1..], text[0]);
        assert [rest[0]] + rest[1..] == rest;
      }
    }
  }

  /** One data line for each line. */
  function DataLines(parts: seq<Bytes>): Bytes {
    if parts == [] then [] else PREFIX + parts[0] + [LF] + DataLines(parts[1..])
  }

  /** An event as a sender has to write it: one data line for each line of the payload, then a blank line. */
  function Spelled(payload: Bytes): Bytes {
    DataLines(Pieces(payload)) + [LF]
  }

  function SpelledAll(payloads: seq<Bytes>): Bytes {
    if payloads == [] then [] else Spelled(payloads[0]) + SpelledAll(payloads[1..])
  }

  function Trimmed(parts: seq<Bytes>): (r: seq<Bytes>)
    ensures |r| == |parts|
  {
    seq(|parts|, i requires 0 <= i < |parts| => TrimCr(parts[i]))
  }

  /** What reading makes of a payload spelled out: its lines without their trailing CRs. */
  function Heard(payload: Bytes): Bytes {
    Join(Trimmed(Pieces(payload)))
  }

  function HeardAll(payloads: seq<Bytes>): (r: seq<Bytes>)
    ensures |r| == |payloads|
  {
    seq(|payloads|, i requires 0 <= i < |payloads| => Heard(payloads[i]))
  }

  lemma {:induction false} DataLinesRead(parts: seq<Bytes>, rest: Bytes, pending: seq<Bytes>)
    requires forall i | 0 <= i < |parts| :: LF !in parts[i]
    ensures Payloads(Tail(DataLines(parts) + [LF] + rest, AtEof), pending) ==
      Payloads(Tail([LF] + rest, AtEof), pending + Trimmed(parts))
  {
    hide Classify, TrimCr, Pieces;
    if parts == [] {
      assert pending + Trimmed(parts) == pending;
      assert [] + [LF] + rest == [LF] + rest;
    } else {
      var line, more := PREFIX + parts[0], DataLines(parts[1..]) + [LF] + rest;
      assert DataLines(parts) + [LF] + rest == line + [LF] + more;
      FirstTailLine(line, more, AtEof);
      PrefixedIsData(parts[0]);
      var tail := Tail(more, AtEof);
      assert ([line] + tail)[1..] == tail;
      DataLinesRead(parts[1..], rest, pending + [TrimCr(parts[0])]);
      assert pending + Trimmed(parts) == pending + [TrimCr(parts[0])] + Trimmed(parts[1..]);
    }
  }

  lemma BlankLine()
    ensures Classify([]) == Blank
  {
  }

  lemma SpelledRead(payload: Bytes, rest: Bytes)
    ensures Payloads(Tail(Spelled(payload) + rest, AtEof), []) == [Heard(payload)] + Payloads(Tail(rest, AtEof), [])
  {
    hide TrimCr, Pieces, Join;
    var parts := Pieces(payload);
    PiecesHaveNoLf(payload);
    assert Spelled(payload) + rest == DataLines(parts) + [LF] + rest;
    DataLinesRead(parts, rest, []);
    FirstTailLine([], rest, AtEof);
    assert [] + [LF] + rest == [LF] + rest;
    assert [] + Trimmed(parts) == Trimmed(parts);
    BlankLine();
    var tail := Tail(rest, AtEof);
    assert ([[]] + tail)[1..] == tail;
  }

  lemma NothingRead()
    ensures Payloads(Tail([], AtEof), []) == []
  {
    var blank: seq<Bytes> := [[]];
    assert Tail([], AtEof) == blank + blank;
    assert (blank + blank)[1..] == blank && blank[1..] == [];
  }

  lemma {:induction false} SpelledAllRead(payloads: seq<Bytes>)
    ensures Payloads(Tail(SpelledAll(payloads), AtEof), []) == HeardAll(payloads)
  {
    hide Payloads, Tail, Heard, Spelled;
    if payloads == [] {
      NothingRead();
    } else {
      SpelledRead(payloads[0], SpelledAll(payloads[1..]));
      SpelledAllRead(payloads[1..]);
      assert HeardAll(payloads) == [Heard(payloads[0])] + HeardAll(payloads[1..]);
    }
  }

  /** No line of the payload ends with a carriage return. */
  ghost predicate NoCrAtLineEnd(payload: Bytes) {
    forall i | 0 <= i < |Pieces(payload)| :: !EndsWithCr(Pieces(payload)[i])
  }

  lemma HeardExactly(payload: Bytes)
    ensures Heard(payload) == payload <==> NoCrAtLineEnd(payload)
  {
    hide TrimCr, Pieces, Join;
    var parts := Pieces(payload);
    var trimmed := Trimmed(parts);
    PiecesHaveNoLf(payload);
    FoundAreJoined(payload);
    forall i | 0 <= i < |parts|
      ensures LF !in trimmed[i] && (trimmed[i] == parts[i] <==> !EndsWithCr(parts[i]))
    {
      TrimExactly(parts[i]);
    }
    JoinedAreFound(trimmed);
    if NoCrAtLineEnd(payload) {
      assert trimmed == parts;
    }
  }

  lemma {:induction false} DeliverLength(keep: Callback, ps: seq<Bytes>, before: seq<Bytes>)
    requires forall h :: keep(h)
    ensures DONE in ps ==> |Deliver(keep, ps, before).delivered| < |before| + |ps|
  {
    if ps != [] && ps[0] != DONE {
      DeliverLength(keep, ps[1..], before + [ps[0]]);
    }
  }

  /** Whatever its bytes and however many lines it has, a list of payloads spelled out is delivered as it is exactly
      when none is the end marker and no line in them ends with a carriage return. */
  lemma SpelledRoundTrip(keep: Callback, payloads: seq<Bytes>)
    requires forall h :: keep(h)
    ensures OneShot(keep, SpelledAll(payloads), AtEof).delivered == payloads
      <==> forall i | 0 <= i < |payloads| :: payloads[i] != DONE && NoCrAtLineEnd(payloads[i])
  {
    hide Heard, NoCrAtLineEnd, Payloads, SpelledAll;
    var read := HeardAll(payloads);
    SpelledAllRead(payloads);
    forall i | 0 <= i < |payloads|
      ensures read[i] == payloads[i] <==> NoCrAtLineEnd(payloads[i])
    {
      HeardExactly(payloads[i]);
    }
    DeliverAll(keep, read, []);
    DeliverLength(keep, read, []);
    assert [] + read == read;
    if forall i | 0 <= i < |payloads| :: payloads[i] != DONE && NoCrAtLineEnd(payloads[i]) {
      assert read == payloads;
    }
  }

  // ---------------------------------------------------------------- which lines make an event

  /** The data lines among some lines. */
  function DataIn(lines: seq<Bytes>): seq<Bytes> {
    if lines == [] then []
    else (if Classify(lines[0]).Data? then [Classify(lines[0]).payload] else []) + DataIn(lines[1..])
  }

  /** Without a blank line there is no event. */
  lemma {:induction false} NoEventYet(lines: seq<Bytes>, pending: seq<Bytes>)
    requires forall i | 0 <= i < |lines| :: !Classify(lines[i]).Blank?
    ensures Payloads(lines, pending) == []
  {
    hide Classify;
    if lines != [] {
      var c := Classify(lines[0]);
      NoEventYet(lines[1..], if c.Data? then pending + [c.payload] else pending);
    }
  }

  lemma BlankEnds(pending: seq<Bytes>)
    ensures Payloads([[]], pending) == if pending == [] then [] else [Join(pending)]
  {
    hide Join;
    var blank: seq<Bytes> := [[]];
    BlankLine();
    assert blank[1..] == [];
    assert Payloads(blank[1..], []) == [];
  }

  lemma NextLine(line: Bytes, rest: seq<Bytes>, pending: seq<Bytes>)
    requires !Classify(line).Blank?
    ensures var c := Classify(line);
      Payloads([line] + rest, pending) == Payloads(rest, if c.Data? then pending + [c.payload] else pending)
  {
    assert ([line] + rest)[1..] == rest;
  }

  /** Lines up to a blank one make one event of all the data lines among them, or none when there is no data. */
  lemma {:induction false} EventOfLines(lines: seq<Bytes>, pending: seq<Bytes>)
    requires forall i | 0 <= i < |lines| :: !Classify(lines[i]).Blank?
    ensures Payloads(lines + [[]], pending) ==
      if pending + DataIn(lines) == [] then [] else [Join(pending + DataIn(lines))]
  {
    hide Classify, Join, Payloads;
    if lines == [] {
      BlankEnds(pending);
      assert lines + [[]] == [[]] && pending + DataIn(lines) == pending;
    } else {
      var c := Classify(lines[0]);
      var pending' := if c.Data? then pending + [c.payload] else pending;
      assert lines + [[]] == [lines[0]] + (lines[1..] + [[]]);
      NextLine(lines[0], lines[1..] + [[]], pending);
      EventOfLines(lines[1..], pending');
      assert pending' + DataIn(lines[1..]) == pending + DataIn(lines);
    }
  }

  // ---------------------------------------------------------------- how an input ends

  /** At its end an input counts as if a line end and a blank line followed. */
  lemma EndIsBlankLine(keep: Callback, text: Bytes)
    ensures OneShot(keep, text, AtEof) == OneShot(keep, text + [LF, LF], Broken)
  {
    PiecesBeforeBlank(text, []);
    assert text + [LF, LF] + [] == text + [LF, LF];
  }

  lemma {:induction false} PiecesGrow(text: Bytes, more: Bytes)
    requires LF !in more
    ensures |Pieces(text + more)| == |Pieces(text)|
    ensures Pieces(text + more)[..|Pieces(text)| - 1] == Pieces(text)[..|Pieces(text)| - 1]
  {
    if text == [] {
      assert text + more == more;
      LastLine(more);
    } else {
      assert (text + more)[1..] == text[1..] + more;
      PiecesGrow(text[1..], more);
      var rest, rest' := Pieces(text[1..]), Pieces(text[1..] + more);
      assert |rest| > 1 ==> rest'[0] == rest'[..|rest| - 1][0] == rest[..|rest| - 1][0] == rest[0];
      assert rest'[1..][..|rest| - 1] == rest'[1..];
      if text[0] == LF {
        assert ([[]] + rest')[..|rest|] == [[]] + rest'[..|rest| - 1];
      } else if |rest| > 1 {
        assert forall i | 1 <= i < |rest| - 1 :: rest'[i] == rest'[..|rest| - 1][i] == rest[..|rest| - 1][i] == rest[i];
      }
    }
  }

  /** A broken input loses the line it broke off in. */
  lemma BrokenLosesLine(keep: Callback, text: Bytes, line: Bytes)
    requires LF !in line
    ensures OneShot(keep, text + line, Broken) == OneShot(keep, text, Broken)
  {
    PiecesGrow(text, line);
  }

  // ---------------------------------------------------------------- where delivery stops

  lemma {:induction false} DeliverFrom(keep: Callback, ps: seq<Bytes>, k: nat)
    requires k <= |ps| && DONE !in ps[..k] && forall j | 0 < j <= k :: keep(ps[..j])
    ensures var d := Deliver(keep, ps[k..], ps[..k]);
      var n := |d.delivered|;
      && n <= |ps| && d.delivered == ps[..n] && DONE !in ps[..n]
      && (forall j | 0 < j < n :: keep(ps[..j]))
      && (d.stopped <==> (n < |ps| && ps[n] == DONE) || (n > 0 && !keep(ps[..n])))
      && (!d.stopped ==> n == |ps|)
    decreases |ps| - k
  {
    if k < |ps| {
      assert ps[k..][0] == ps[k] && ps[k..][1..] == ps[k + 1..];
      assert ps[..k] + [ps[k]] == ps[..k + 1];
      if ps[k] != DONE && keep(ps[..k + 1]) {
        DeliverFrom(keep, ps, k + 1);
      }
    } else {
      assert ps[k..] == [] && ps[..k] == ps;
    }
  }

  /** Payloads are delivered in order up to the first that the callback declines, that one included, or up to the end
      marker, which is not delivered; the stream counts as stopped in these two cases only. */
  lemma DeliveredExactly(keep: Callback, ps: seq<Bytes>)
    ensures var d := Deliver(keep, ps, []);
      var n := |d.delivered|;
      && n <= |ps| && d.delivered == ps[..n] && DONE !in ps[..n]
      && (forall j | 0 < j < n :: keep(ps[..j]))
      && (d.stopped <==> (n < |ps| && ps[n] == DONE) || (n > 0 && !keep(ps[..n])))
      && (!d.stopped ==> n == |ps|)
  {
    assert ps[0..] == ps && ps[..0] == [];
    DeliverFrom(keep, ps, 0);
  }
}
