/** Server-sent events as bytes: a one-shot reading of a whole text, and the printer for single-line
    payloads. Only LF ends a line, trailing CRs are dropped, and an unfinished event at the end of the
    input is dispatched, as the code does. */
module EventStream {

  newtype byte = b: int | 0 <= b < 256

  type Bytes = seq<byte>

  const LF: byte := 10
  const CR: byte := 13
  const SPACE: byte := 32
  const COLON: byte := 58
  const DATA: Bytes := [100, 97, 116, 97, COLON]       // data:
  const DONE: Bytes := [91, 68, 79, 78, 69, 93]        // [DONE]

  // ---------------------------------------------------------------- reading

  /** The text cut at its line feeds; the last piece is the unfinished line. */
  function Pieces(text: Bytes): (r: seq<Bytes>)
    ensures r != []
  {
    if text == [] then [[]]
    else
      var rest := Pieces(text[1..]);
      if text[0] == LF then [[]] + rest else [[text[0]] + rest[0]] + rest[1..]
  }

  function TrimCr(line: Bytes): Bytes {
    if line != [] && line[|line| - 1] == CR then TrimCr(line[..|line| - 1]) else line
  }

  datatype Line = Blank | Data(payload: Bytes) | Ignored

  function Classify(raw: Bytes): Line {
    var line := TrimCr(raw);
    if line == [] then Blank
    else if DATA <= line then
      Data(if |line| > 5 && line[5] == SPACE then line[6..] else line[5..])
    else Ignored
  }

  function Join(parts: seq<Bytes>): Bytes {
    if parts == [] then []
    else if |parts| == 1 then parts[0]
    else Join(parts[..|parts| - 1]) + [LF] + parts[|parts| - 1]
  }

  /** The payloads dispatched by the blank lines of `lines`, given the data lines already pending. */
  function Payloads(lines: seq<Bytes>, pending: seq<Bytes>): seq<Bytes> {
    if lines == [] then []
    else
      match Classify(lines[0])
      case Blank => (if pending == [] then [] else [Join(pending)]) + Payloads(lines[1..], [])
      case Data(d) => Payloads(lines[1..], pending + [d])
      case Ignored => Payloads(lines[1..], pending)
  }

  datatype Ending = AtEof | Broken

  /** The lines an input amounts to: at its end the unfinished line counts and a pending event is dispatched;
      a broken input loses both. */
  function Tail(text: Bytes, ending: Ending): seq<Bytes> {
    if ending == AtEof then Pieces(text) + [[]] else Pieces(text)[..|Pieces(text)| - 1]
  }

  /** A stateful callback, as the answer it gives to everything delivered so far. */
  type Callback = seq<Bytes> -> bool

  datatype Delivery = Delivery(delivered: seq<Bytes>, stopped: bool)

  /** Hands payloads over until the end marker or until the callback declines. */
  function Deliver(keep: Callback, payloads: seq<Bytes>, before: seq<Bytes>): Delivery {
    if payloads == [] then Delivery(before, false)
    else if payloads[0] == DONE then Delivery(before, true)
    else if !keep(before + [payloads[0]]) then Delivery(before + [payloads[0]], true)
    else Deliver(keep, payloads[1..], before + [payloads[0]])
  }

  /** The one-shot meaning of an input. */
  function OneShot(keep: Callback, text: Bytes, ending: Ending): Delivery {
    Deliver(keep, Payloads(Tail(text, ending), []), [])
  }

  // ---------------------------------------------------------------- cutting lines

  /** The first line of a text that has one, and what follows it. */
  lemma {:induction false} FirstLine(line: Bytes, rest: Bytes)
    requires LF !in line
    ensures Pieces(line + [LF] + rest) == [line] + Pieces(rest)
  {
    var text := line + [LF] + rest;
    if line == [] {
      assert text[1..] == rest;
    } else {
      assert text[1..] == line[1..] + [LF] + rest;
      FirstLine(line[1..], rest);
      assert [line[0]] + line[1..] == line;
    }
  }

  lemma {:induction false} LastLine(line: Bytes)
    requires LF !in line
    ensures Pieces(line) == [line]
  {
    if line != [] {
      LastLine(line[1..]);
      assert [line[0]] + line[1..] == line;
    }
  }

  lemma FirstTailLine(line: Bytes, rest: Bytes, ending: Ending)
    requires LF !in line
    ensures Tail(line + [LF] + rest, ending) == [line] + Tail(rest, ending)
  {
    FirstLine(line, rest);
  }

  // ---------------------------------------------------------------- printing

  const PREFIX: Bytes := DATA + [SPACE]

  function Printed(payload: Bytes): Bytes {
    PREFIX + payload + [LF, LF]
  }

  function PrintedAll(payloads: seq<Bytes>): Bytes {
    if payloads == [] then [] else Printed(payloads[0]) + PrintedAll(payloads[1..])
  }

  /** A payload the printer can carry: one line, no trailing CR, not the end marker. */
  predicate Clean(p: Bytes) {
    OneLine(p) && p != DONE
  }

  predicate OneLine(p: Bytes) {
    LF !in p && (p == [] || p[|p| - 1] != CR)
  }

  ghost predicate AllClean(ps: seq<Bytes>) {
    forall i | 0 <= i < |ps| :: Clean(ps[i])
  }

  /** The lines of one printed event: the payload's own lines, the first of them prefixed, and a blank. */
  function EventLines(p: Bytes): seq<Bytes> {
    [PREFIX + Pieces(p)[0]] + Pieces(p)[1..] + [[]]
  }

  lemma {:induction false} PiecesAfterPrefix(prefix: Bytes, text: Bytes)
    requires LF !in prefix
    ensures Pieces(prefix + text) == [prefix + Pieces(text)[0]] + Pieces(text)[1..]
  {
    if prefix == [] {
      assert prefix + text == text;
      assert prefix + Pieces(text)[0] == Pieces(text)[0];
    } else {
      assert (prefix + text)[1..] == prefix[1..] + text;
      PiecesAfterPrefix(prefix[1..], text);
      assert [prefix[0]] + (prefix[1..] + Pieces(text)[0]) == prefix + Pieces(text)[0];
    }
  }

  lemma {:induction false} PiecesBeforeBlank(p: Bytes, rest: Bytes)
    ensures Pieces(p + [LF, LF] + rest) == Pieces(p) + [[]] + Pieces(rest)
  {
    var text := p + [LF, LF] + rest;
    if p == [] {
      assert text[1..] == [LF] + rest;
      assert ([LF] + rest)[1..] == rest;
    } else {
      assert text[1..] == p[1..] + [LF, LF] + rest;
      PiecesBeforeBlank(p[1..], rest);
    }
  }

  lemma PrintedPieces(p: Bytes, rest: Bytes)
    ensures Pieces(Printed(p) + rest) == EventLines(p) + Pieces(rest)
  {
    assert Printed(p) + rest == PREFIX + (p + [LF, LF] + rest);
    PiecesAfterPrefix(PREFIX, p + [LF, LF] + rest);
    PiecesBeforeBlank(p, rest);
  }

  /** A list of lines ending in a blank leaves nothing pending. */
  lemma {:induction false} PayloadsSplit(lines: seq<Bytes>, rest: seq<Bytes>, pending: seq<Bytes>)
    ensures Payloads(lines + [[]] + rest, pending) == Payloads(lines + [[]], pending) + Payloads(rest, [])
  {
    var all := lines + [[]] + rest;
    if lines == [] {
      assert all[1..] == rest;
      assert (lines + [[]])[1..] == [];
    } else {
      assert all[1..] == lines[1..] + [[]] + rest;
      assert (lines + [[]])[1..] == lines[1..] + [[]];
      PayloadsSplit(lines[1..], rest, if Classify(lines[0]).Data? then pending + [Classify(lines[0]).payload]
                                      else if Classify(lines[0]).Blank? then [] else pending);
    }
  }

  /** What reading makes of one printed payload. */
  function Reread(p: Bytes): seq<Bytes> {
    Payloads(EventLines(p), [])
  }

  function RereadAll(ps: seq<Bytes>): seq<Bytes> {
    if ps == [] then [] else Reread(ps[0]) + RereadAll(ps[1..])
  }

  lemma {:induction false} PrintedPayloads(ps: seq<Bytes>)
    ensures Payloads(Tail(PrintedAll(ps), AtEof), []) == RereadAll(ps)
  {
    if ps == [] {
      var blank: seq<Bytes> := [[]];
      assert Tail([], AtEof) == blank + blank;
      assert (blank + blank)[1..] == blank;
      assert Payloads(blank, []) == [];
    } else {
      var p, rest := ps[0], PrintedAll(ps[1..]);
      PrintedPieces(p, rest);
      var front := [PREFIX + Pieces(p)[0]] + Pieces(p)[1..];
      assert Tail(PrintedAll(ps), AtEof) == front + [[]] + Tail(rest, AtEof);
      PayloadsSplit(front, Tail(rest, AtEof), []);
      PrintedPayloads(ps[1..]);
    }
  }

  // ---------------------------------------------------------------- how much a reading can yield

  function Weight(ps: seq<Bytes>): nat {
    if ps == [] then 0 else |ps[0]| + Weight(ps[1..])
  }

  lemma {:induction false} WeightConcat(a: seq<Bytes>, b: seq<Bytes>)
    ensures Weight(a + b) == Weight(a) + Weight(b)
  {
    if a == [] {
      assert a + b == b;
    } else {
      assert (a + b)[1..] == a[1..] + b;
      WeightConcat(a[1..], b);
    }
  }

  lemma {:induction false} TrimShortens(line: Bytes)
    ensures |TrimCr(line)| <= |line|
    ensures line != [] && line[|line| - 1] == CR ==> |TrimCr(line)| < |line|
  {
    if line != [] && line[|line| - 1] == CR {
      TrimShortens(line[..|line| - 1]);
    }
  }

  lemma {:induction false} TrimKeepsPrefix(p: Bytes)
    ensures TrimCr(PREFIX + p) == PREFIX + TrimCr(p)
  {
    if p != [] && p[|p| - 1] == CR {
      assert (PREFIX + p)[..|PREFIX + p| - 1] == PREFIX + p[..|p| - 1];
      TrimKeepsPrefix(p[..|p| - 1]);
    } else if p == [] {
      assert PREFIX + p == PREFIX;
    }
  }

  lemma PrefixedIsData(p: Bytes)
    ensures Classify(PREFIX + p) == Data(TrimCr(p))
  {
    TrimKeepsPrefix(p);
    var line := PREFIX + TrimCr(p);
    assert line[..5] == DATA && line[5] == SPACE && line[6..] == TrimCr(p);
  }

  /** What a line can add to a payload, its separator included. */
  function Gain(line: Bytes): nat {
    if Classify(line).Data? then |Classify(line).payload| + 1 else 0
  }

  function Gains(lines: seq<Bytes>): nat {
    if lines == [] then 0 else Gain(lines[0]) + Gains(lines[1..])
  }

  lemma {:induction false} PayloadsBounded(lines: seq<Bytes>, pending: seq<Bytes>)
    ensures Weight(Payloads(lines, pending)) <= |Join(pending)| + Gains(lines)
  {
    if lines != [] {
      match Classify(lines[0]) {
        case Blank =>
          PayloadsBounded(lines[1..], []);
          WeightConcat(if pending == [] then [] else [Join(pending)], Payloads(lines[1..], []));
        case Data(d) =>
          PayloadsBounded(lines[1..], pending + [d]);
          assert (pending + [d])[..|pending|] == pending;
        case Ignored =>
          PayloadsBounded(lines[1..], pending);
      }
    }
  }

  function LengthsPlusOne(lines: seq<Bytes>): nat {
    if lines == [] then 0 else |lines[0]| + 1 + LengthsPlusOne(lines[1..])
  }

  lemma {:induction false} PiecesLength(text: Bytes)
    ensures LengthsPlusOne(Pieces(text)) == |text| + 1
    ensures |Pieces(text)| == 1 <==> LF !in text
  {
    if text != [] {
      PiecesLength(text[1..]);
    }
  }

  lemma {:induction false} GainsBounded(lines: seq<Bytes>)
    ensures Gains(lines + [[]]) <= LengthsPlusOne(lines)
    ensures lines != [] ==> Gains(lines + [[]]) < LengthsPlusOne(lines)
  {
    if lines == [] {
      assert (lines + [[]])[1..] == [];
      assert Classify([]) == Blank;
    } else {
      assert (lines + [[]])[1..] == lines[1..] + [[]];
      GainsBounded(lines[1..]);
      TrimShortens(lines[0]);
    }
  }

  lemma RereadStart(p: Bytes)
    ensures Reread(p) == Payloads(Pieces(p)[1..] + [[]], [TrimCr(Pieces(p)[0])])
  {
    hide TrimCr, Classify, Pieces;
    var q := Pieces(p);
    var lines := EventLines(p);
    PrefixedIsData(q[0]);
    assert lines[1..] == q[1..] + [[]];
    assert [] + [TrimCr(q[0])] == [TrimCr(q[0])];
  }

  /** A printed payload is read back whole exactly when it is one line without a trailing CR. */
  lemma RereadWeight(p: Bytes)
    ensures Weight(Reread(p)) <= |p|
    ensures Weight(Reread(p)) == |p| ==> OneLine(p)
    ensures OneLine(p) ==> Reread(p) == [p]
  {
    hide Payloads, Reread, Gains, TrimCr, Pieces;
    var q := Pieces(p);
    var d := TrimCr(q[0]);
    RereadStart(p);
    PiecesLength(p);
    TrimShortens(q[0]);
    PayloadsBounded(q[1..] + [[]], [d]);
    GainsBounded(q[1..]);
    if |q| == 1 {
      LastLine(p);
      OnePayload(d);
      assert q[1..] + [[]] == [[]];
      NotTrimmed(p);
    }
  }

  lemma OnePayload(d: Bytes)
    ensures Payloads([[]], [d]) == [d]
  {
    var blank: seq<Bytes> := [[]];
    assert blank[1..] == [];
  }

  lemma NotTrimmed(p: Bytes)
    ensures OneLine(p) ==> TrimCr(p) == p
  {
  }

  lemma {:induction false} RereadAllWeight(ps: seq<Bytes>)
    ensures Weight(RereadAll(ps)) <= Weight(ps)
    ensures Weight(RereadAll(ps)) == Weight(ps) ==> RereadAll(ps) == ps && forall i | 0 <= i < |ps| :: OneLine(ps[i])
  {
    hide Reread, OneLine;
    if ps != [] {
      RereadWeight(ps[0]);
      RereadAllWeight(ps[1..]);
      WeightConcat(Reread(ps[0]), RereadAll(ps[1..]));
    }
  }

  lemma {:induction false} RereadAllClean(ps: seq<Bytes>)
    requires AllClean(ps)
    ensures RereadAll(ps) == ps
  {
    hide Reread, OneLine;
    if ps != [] {
      RereadWeight(ps[0]);
      RereadAllClean(ps[1..]);
    }
  }

  /** A callback that never declines sees everything up to the end marker. */
  lemma {:induction false} DeliverAll(keep: Callback, ps: seq<Bytes>, before: seq<Bytes>)
    requires forall h :: keep(h)
    ensures Weight(Deliver(keep, ps, before).delivered) <= Weight(before) + Weight(ps)
    ensures DONE in ps ==> Weight(Deliver(keep, ps, before).delivered) < Weight(before) + Weight(ps)
    ensures DONE !in ps ==> Deliver(keep, ps, before) == Delivery(before + ps, false)
  {
    if ps == [] {
      assert before + ps == before;
    } else if ps[0] != DONE {
      DeliverAll(keep, ps[1..], before + [ps[0]]);
      WeightConcat(before, [ps[0]]);
      assert before + [ps[0]] + ps[1..] == before + ps;
    }
  }

  /** Printing a list of payloads and reading the bytes back yields the same list exactly when every
      payload is a single line with no trailing CR and is not the end marker. */
  lemma RoundTrip(keep: Callback, ps: seq<Bytes>)
    requires forall h :: keep(h)
    ensures OneShot(keep, PrintedAll(ps), AtEof).delivered == ps <==> AllClean(ps)
  {
    PrintedPayloads(ps);
    var read := RereadAll(ps);
    DeliverAll(keep, read, []);
    RereadAllWeight(ps);
    if AllClean(ps) {
      RereadAllClean(ps);
      assert DONE !in ps;
      assert [] + ps == ps;
    }
    if Deliver(keep, read, []).delivered == ps {
      assert read == ps;
    }
  }
}
