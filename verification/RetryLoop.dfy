/** The retry loop of the request handlers: which accounts are taken, released and excluded, what reaches the
    client, and when another attempt is made. Upstream, scheduler and client are arbitrary functions. */
module RetryLoop {
  import opened Wrappers

  // ---------------------------------------------------------------- what can happen

  datatype Kind = Completed | Failed(capacity: bool) | Other

  /** An upstream event and, for each piece it is translated to, whether writing that piece would succeed. */
  datatype Event = Event(kind: Kind, writes: seq<bool>)

  datatype Reply =
    | TransportError(retryable: bool, mentionsTimeout: bool)
    | Status(code: int, toolNotSupported: bool, workspaceDeactivated: bool)
    | Stream(events: seq<Event>, readErr: bool, ctxErr: bool)

  /** /v1/responses and /v1/chat/completions share one loop; /v1/messages has its own. */
  datatype Handler = Codex | Messages

  datatype Request = Request(
    handler: Handler, isStream: bool, maxRetries: nat,
    planned: set<int>, notPreferred: set<int>,
    take: (nat, nat, set<int>) -> Option<int>,
    reply: (nat, int) -> Reply)

  /** The scheduler never hands out an excluded account. */
  ghost predicate Honest(r: Request) {
    forall attempt, stage, exclude :: r.take(attempt, stage, exclude).Some? ==>
      r.take(attempt, stage, exclude).value !in exclude
  }

  datatype Action = Take(attempt: nat, id: int) | Write | Release(id: int)

  // ---------------------------------------------------------------- decisions

  /** Every transport error has a failure kind. */
  function ClassifyTransportFailure(mentionsTimeout: bool): string {
    if mentionsTimeout then "timeout" else "transport"
  }

  /** The loop gives up on a transport error only when it is not retryable and has no failure kind. */
  predicate GivesUp(reply: Reply)
    requires reply.TransportError?
  {
    !reply.retryable && ClassifyTransportFailure(reply.mentionsTimeout) == ""
  }

  predicate RetryableStatus(handler: Handler, reply: Reply)
    requires reply.Status?
  {
    || reply.code in {429, 503, 401, 500} || reply.workspaceDeactivated
    || (handler == Codex && reply.code == 400 && reply.toolNotSupported)
  }

  datatype Outcome = Outcome(status: int, penalize: bool)

  function ClassifyStreamOutcome(ctxErr: bool, readErr: bool, writeErr: bool, gotTerminal: bool): Outcome {
    if gotTerminal then Outcome(200, false)
    else if ctxErr || writeErr then Outcome(499, false)
    else if readErr then Outcome(598, true)
    else Outcome(598, true)
  }

  predicate ShouldTransparentRetryStream(outcome: Outcome, attempt: nat, maxRetries: nat, wroteAnyBody: bool,
                                         ctxErr: bool, writeErr: bool) {
    attempt < maxRetries && outcome.penalize && !wroteAnyBody && !ctxErr && !writeErr
  }

  // ---------------------------------------------------------------- reading one stream

  datatype Scan = Scan(gotTerminal: bool, wrote: bool, writeErr: bool, capacity: bool, log: seq<Action>)

  const NOTHING_READ := Scan(false, false, false, false, [])

  /** The writes for one event: none after one has failed. */
  function Written(st: Scan, writes: seq<bool>): Scan
    decreases |writes|
  {
    if writes == [] || st.writeErr then st
    else if writes[0] then Written(st.(wrote := true, log := st.log + [Write]), writes[1..])
    else st.(writeErr := true)
  }

  /** The callback on one event of a streamed response. */
  function StreamEvent(st: Scan, e: Event): Scan {
    if e.kind == Failed(true) && !st.wrote then st.(gotTerminal := true, capacity := true)
    else Written(st.(gotTerminal := e.kind != Other), e.writes)
  }

  /** The callback on one event of a response that is collected before it is answered. */
  function CollectEvent(st: Scan, e: Event): Scan {
    st.(gotTerminal := e.kind != Other, capacity := e.kind == Failed(true))
  }

  /** A terminal event ends the reading; /v1/messages also stops when the client cannot be written to. */
  predicate Stops(handler: Handler, st: Scan) {
    st.gotTerminal || (handler == Messages && st.writeErr)
  }

  function ReadEvents(handler: Handler, isStream: bool, events: seq<Event>, st: Scan): Scan
    decreases |events|
  {
    if events == [] then st
    else
      var st' := if isStream then StreamEvent(st, events[0]) else CollectEvent(st, events[0]);
      if Stops(handler, st') then st' else ReadEvents(handler, isStream, events[1..], st')
  }

  /** What is written after the stream and before the decision to retry: nothing on the Codex routes;
      on /v1/messages the closing events of a stream without terminal event, or the whole collected answer. */
  function WritesEarly(handler: Handler, isStream: bool, st: Scan): bool {
    handler == Messages && if isStream then !st.writeErr && !st.gotTerminal else !st.capacity
  }

  // ---------------------------------------------------------------- one attempt

  /** How an attempt ends: what it did after taking its account, whether the loop goes on, what it remembers. */
  datatype Ended = Ended(log: seq<Action>, retry: bool, exclude: bool, lastErr: bool, lastStatus: int)

  function Attempt(r: Request, attempt: nat, id: int): Ended {
    var reply := r.reply(attempt, id);
    match reply
    case TransportError(_, _) =>
      if GivesUp(reply) then Ended([Release(id), Write], false, true, false, 0)
      else Ended([Release(id)], true, true, true, 0)
    case Status(code, _, _) =>
      if RetryableStatus(r.handler, reply) && attempt < r.maxRetries then Ended([Release(id)], true, true, false, code)
      else Ended([Release(id), Write], false, true, false, 0)
    case Stream(events, readErr, ctxErr) =>
      var st := ReadEvents(r.handler, r.isStream, events, NOTHING_READ);
      var log := st.log + if WritesEarly(r.handler, r.isStream, st) then [Write] else [];
      var outcome := ClassifyStreamOutcome(ctxErr, readErr, st.writeErr, st.gotTerminal);
      if st.capacity && !st.wrote then Ended(log + [Release(id)], true, true, true, 0)
      else if ShouldTransparentRetryStream(outcome, attempt, r.maxRetries, st.wrote, ctxErr, st.writeErr)
      then Ended(log + [Release(id)], true, false, true, 0)
      else
        var answer := if r.handler == Codex && !r.isStream then [Write] else [];
        Ended(log + answer + [Release(id)], false, false, false, 0)
  }

  // ---------------------------------------------------------------- the whole request

  /** An account of the preferred plans, else any, else what turns up while waiting. */
  function NextAccount(r: Request, attempt: nat, exclude: set<int>): Option<int> {
    var preferred := if r.handler == Messages || r.notPreferred == {} then None
      else r.take(attempt, 0, exclude + r.notPreferred);
    if preferred.Some? then preferred
    else
      var any := r.take(attempt, 1, exclude);
      if any.Some? then any else r.take(attempt, 2, exclude)
  }

  /** Everything the request does from an attempt on. */
  function Run(r: Request, attempt: nat, exclude: set<int>, lastErr: bool, lastStatus: int): seq<Action>
    decreases r.maxRetries + 1 - attempt
  {
    if attempt > r.maxRetries then if lastErr || lastStatus != 0 then [Write] else []
    else
      var next := NextAccount(r, attempt, exclude);
      if next.None? then [Write]
      else
        var ended := Attempt(r, attempt, next.value);
        [Take(attempt, next.value)] + ended.log +
        if !ended.retry then []
        else Run(r, attempt + 1, if ended.exclude then exclude + {next.value} else exclude,
                 lastErr || ended.lastErr, if ended.lastStatus != 0 then ended.lastStatus else lastStatus)
  }

  function Serve(r: Request): seq<Action> {
    Run(r, 0, r.planned, false, 0)
  }

  // ---------------------------------------------------------------- properties of a log

  /** Accounts are held one at a time: each one taken is released before the next is taken or the log ends,
      and nothing is released that is not held. */
  predicate Disciplined(log: seq<Action>, held: Option<int>) {
    if log == [] then held == None
    else
      match log[0]
      case Take(_, id) => held == None && Disciplined(log[1..], Some(id))
      case Release(id) => held == Some(id) && Disciplined(log[1..], None)
      case Write => Disciplined(log[1..], held)
  }

  function Takes(log: seq<Action>): nat {
    if log == [] then 0 else (if log[0].Take? then 1 else 0) + Takes(log[1..])
  }

  ghost predicate NoTakeAfterWrite(log: seq<Action>) {
    forall i, j | 0 <= i < j < |log| && log[i].Write? :: !log[j].Take?
  }

  function TakesOf(log: seq<Action>, id: int): nat {
    if log == [] then 0 else (if log[0].Take? && log[0].id == id then 1 else 0) + TakesOf(log[1..], id)
  }

  function ReleasesOf(log: seq<Action>, id: int): nat {
    if log == [] then 0 else (if log[0] == Release(id) then 1 else 0) + ReleasesOf(log[1..], id)
  }

  /** So each account is released as often as it is taken. */
  lemma {:induction false} ReleasedAsOftenAsTaken(log: seq<Action>, held: Option<int>, id: int)
    requires Disciplined(log, held)
    ensures ReleasesOf(log, id) == TakesOf(log, id) + if held == Some(id) then 1 else 0
    decreases |log|
  {
    if log != [] {
      ReleasedAsOftenAsTaken(log[1..],
                             match log[0] case Take(_, x) => Some(x) case Release(_) => None case Write => held, id);
    }
  }

  lemma {:induction false} DisciplinedConcat(a: seq<Action>, b: seq<Action>, held: Option<int>)
    requires Disciplined(a, held) && Disciplined(b, None)
    ensures Disciplined(a + b, held)
    decreases |a|
  {
    if a == [] {
      assert a + b == b;
    } else {
      assert (a + b)[1..] == a[1..] + b;
      DisciplinedConcat(a[1..], b, match a[0] case Take(_, id) => Some(id) case Release(_) => None case Write => held);
    }
  }

  lemma {:induction false} TakesConcat(a: seq<Action>, b: seq<Action>)
    ensures Takes(a + b) == Takes(a) + Takes(b)
  {
    if a == [] {
      assert a + b == b;
    } else {
      assert (a + b)[1..] == a[1..] + b;
      TakesConcat(a[1..], b);
    }
  }

  // ---------------------------------------------------------------- one attempt

  ghost predicate OnlyWrites(log: seq<Action>) {
    forall i | 0 <= i < |log| :: log[i].Write?
  }

  lemma {:induction false} WritesOnly(st: Scan, writes: seq<bool>)
    requires OnlyWrites(st.log) && (st.wrote <==> st.log != [])
    ensures OnlyWrites(Written(st, writes).log) && (Written(st, writes).wrote <==> Written(st, writes).log != [])
    ensures Written(st, writes).gotTerminal == st.gotTerminal && Written(st, writes).capacity == st.capacity
    decreases |writes|
  {
    if writes != [] && !st.writeErr && writes[0] {
      WritesOnly(st.(wrote := true, log := st.log + [Write]), writes[1..]);
    }
  }

  /** Reading logs exactly the successful writes, and takes a capacity failure only if there were none. */
  lemma {:induction false} ReadingWritesOnly(handler: Handler, isStream: bool, events: seq<Event>, st: Scan)
    requires OnlyWrites(st.log) && (st.wrote <==> st.log != []) && !st.capacity && !st.gotTerminal
    ensures var end := ReadEvents(handler, isStream, events, st);
      OnlyWrites(end.log) && (end.wrote <==> end.log != []) && (end.capacity ==> end.gotTerminal)
    ensures var end := ReadEvents(handler, isStream, events, st);
      end.capacity && (isStream || st.log == []) ==> end.log == []
    ensures !isStream ==> ReadEvents(handler, isStream, events, st).log == st.log
    decreases |events|
  {
    if events != [] {
      if isStream {
        WritesOnly(st.(gotTerminal := events[0].kind != Other), events[0].writes);
      }
      var st' := if isStream then StreamEvent(st, events[0]) else CollectEvent(st, events[0]);
      if !Stops(handler, st') {
        ReadingWritesOnly(handler, isStream, events[1..], st');
      }
    }
  }

  /** The stream ended with nothing in it that ends a response or, when streaming, gives the client anything. */
  ghost predicate Barren(isStream: bool, events: seq<Event>) {
    forall i | 0 <= i < |events| :: events[i].kind == Other && (isStream ==> events[i].writes == [])
  }

  lemma {:induction false} WritesStay(st: Scan, writes: seq<bool>)
    ensures st.wrote ==> Written(st, writes).wrote
    ensures st.writeErr ==> Written(st, writes).writeErr
    ensures Written(st, writes).gotTerminal == st.gotTerminal
    ensures writes != [] ==> Written(st, writes).wrote || Written(st, writes).writeErr
    decreases |writes|
  {
    if writes != [] && !st.writeErr && writes[0] {
      WritesStay(st.(wrote := true, log := st.log + [Write]), writes[1..]);
    }
  }

  lemma FlagsStay(st: Scan, e: Event)
    requires e.kind != Other || e.writes != []
    ensures var st' := StreamEvent(st, e); st'.gotTerminal || st'.wrote || st'.writeErr
  {
    WritesStay(st.(gotTerminal := e.kind != Other), e.writes);
  }

  lemma {:induction false} SeenStays(handler: Handler, isStream: bool, events: seq<Event>, st: Scan)
    requires st.gotTerminal || (isStream && (st.wrote || st.writeErr))
    ensures var end := if Stops(handler, st) then st else ReadEvents(handler, isStream, events, st);
      end.gotTerminal || end.wrote || end.writeErr
    decreases |events|
  {
    if events != [] && !Stops(handler, st) {
      WritesStay(st.(gotTerminal := events[0].kind != Other), events[0].writes);
      SeenStays(handler, isStream, events[1..], StreamEvent(st, events[0]));
    }
  }

  lemma {:induction false} BarrenIsUnseen(handler: Handler, isStream: bool, events: seq<Event>, st: Scan)
    requires !st.gotTerminal && !st.writeErr && !st.wrote
    ensures var end := ReadEvents(handler, isStream, events, st);
      Barren(isStream, events) <==> !end.gotTerminal && !end.writeErr && !end.wrote
    decreases |events|
  {
    if events != [] {
      var e := events[0];
      var st' := if isStream then StreamEvent(st, e) else CollectEvent(st, e);
      if e.kind == Other && (isStream ==> e.writes == []) {
        BarrenIsUnseen(handler, isStream, events[1..], st');
        assert events == [e] + events[1..];
      } else {
        if isStream {
          FlagsStay(st, e);
        }
        SeenStays(handler, isStream, events[1..], st');
      }
    }
  }

  lemma {:induction false} NoTakes(log: seq<Action>)
    requires forall i | 0 <= i < |log| :: !log[i].Take?
    ensures Takes(log) == 0
  {
    if log != [] {
      NoTakes(log[1..]);
    }
  }

  lemma {:induction false} WritesThenRelease(writes: seq<Action>, id: int)
    requires OnlyWrites(writes)
    ensures Disciplined(writes + [Release(id)], Some(id))
  {
    if writes != [] {
      assert (writes + [Release(id)])[1..] == writes[1..] + [Release(id)];
      WritesThenRelease(writes[1..], id);
    } else {
      assert writes + [Release(id)] == [Release(id)];
    }
  }

  /** After taking an account an attempt writes, then releases exactly that account, then may write once more. */
  lemma AttemptShape(r: Request, attempt: nat, id: int)
    ensures Disciplined(Attempt(r, attempt, id).log, Some(id)) && Takes(Attempt(r, attempt, id).log) == 0
    ensures forall i | 0 <= i < |Attempt(r, attempt, id).log| :: !Attempt(r, attempt, id).log[i].Take?
  {
    var reply := r.reply(attempt, id);
    if reply.Stream? {
      ReadingWritesOnly(r.handler, r.isStream, reply.events, NOTHING_READ);
      var log := Attempt(r, attempt, id).log;
      assert OnlyWrites(log[..|log| - 1]) && log[|log| - 1] == Release(id);
      WritesThenRelease(log[..|log| - 1], id);
      assert log == log[..|log| - 1] + [Release(id)];
    }
    NoTakes(Attempt(r, attempt, id).log);
  }

  /** The first write that the events call for, and whether it would succeed. */
  function FirstWrite(events: seq<Event>): Option<bool> {
    if events == [] then None
    else if events[0].writes != [] then Some(events[0].writes[0])
    else FirstWrite(events[1..])
  }

  /** Event `k` is a capacity failure, the first event to end the response, and the client has seen nothing:
      when streaming, either nothing was to be written before it, or on the Codex routes the client was gone at once. */
  ghost predicate CapacityAt(handler: Handler, isStream: bool, gone: bool, events: seq<Event>, k: nat)
    requires k < |events|
  {
    && events[k].kind == Failed(true) && (forall j | 0 <= j < k :: events[j].kind == Other)
    && (isStream && !gone ==>
          FirstWrite(events[..k]) == None || (handler == Codex && FirstWrite(events[..k]) == Some(false)))
  }

  ghost predicate CapacityFirst(handler: Handler, isStream: bool, events: seq<Event>) {
    exists k | 0 <= k < |events| :: CapacityAt(handler, isStream, false, events, k)
  }

  lemma CapacityLater(handler: Handler, isStream: bool, gone: bool, events: seq<Event>, k: nat)
    requires k + 1 < |events| && events[0].kind == Other
    ensures CapacityAt(handler, isStream, gone, events, k + 1) <==>
      if isStream && !gone && events[0].writes != []
      then !events[0].writes[0] && handler == Codex && CapacityAt(handler, isStream, true, events[1..], k)
      else CapacityAt(handler, isStream, gone, events[1..], k)
  {
    assert events[..k + 1][1..] == events[1..][..k];
    assert forall j | 0 <= j < k :: events[1..][j] == events[j + 1];
  }

  lemma {:induction false} CapacityStays(st: Scan, writes: seq<bool>)
    ensures Written(st, writes).capacity == st.capacity
    ensures writes != [] && !st.writeErr && !writes[0] ==> Written(st, writes) == st.(writeErr := true)
    ensures writes == [] || st.writeErr ==> Written(st, writes) == st
    ensures st.wrote || (writes != [] && !st.writeErr && writes[0]) ==> Written(st, writes).wrote
    decreases |writes|
  {
    if writes != [] && !st.writeErr && writes[0] {
      CapacityStays(st.(wrote := true, log := st.log + [Write]), writes[1..]);
    }
  }

  lemma {:induction false} ShownIsNoCapacity(handler: Handler, isStream: bool, events: seq<Event>, st: Scan)
    requires isStream && st.wrote && !st.capacity && !st.gotTerminal
    ensures !ReadEvents(handler, isStream, events, st).capacity
    decreases |events|
  {
    if events != [] {
      var st' := StreamEvent(st, events[0]);
      WritesStay(st.(gotTerminal := events[0].kind != Other), events[0].writes);
      CapacityStays(st.(gotTerminal := events[0].kind != Other), events[0].writes);
      if !Stops(handler, st') {
        ShownIsNoCapacity(handler, isStream, events[1..], st');
      }
    }
  }

  lemma NotAtOther(handler: Handler, isStream: bool, gone: bool, events: seq<Event>)
    requires events != [] && events[0].kind == Other
    ensures !CapacityAt(handler, isStream, gone, events, 0)
  {
  }

  lemma LaterOnly(handler: Handler, isStream: bool, gone: bool, events: seq<Event>)
    requires events != [] && events[0].kind == Other
    ensures (exists k | 0 <= k < |events| :: CapacityAt(handler, isStream, gone, events, k)) <==>
      if isStream && !gone && events[0].writes != []
      then !events[0].writes[0] && handler == Codex && exists k | 0 <= k < |events[1..]| ::
        CapacityAt(handler, isStream, true, events[1..], k)
      else exists k | 0 <= k < |events[1..]| :: CapacityAt(handler, isStream, gone, events[1..], k)
  {
    var rest := events[1..];
    var first := isStream && !gone && events[0].writes != [];
    forall k | 0 <= k < |rest| {
      CapacityLater(handler, isStream, gone, events, k);
    }
    var gone' := gone || first;
    hide CapacityAt;
    if k :| 0 <= k < |events| && CapacityAt(handler, isStream, gone, events, k) {
      NotAtOther(handler, isStream, gone, events);
      assert CapacityAt(handler, isStream, gone', rest, k - 1);
    } else if k :| 0 <= k < |rest| && CapacityAt(handler, isStream, gone', rest, k) {
      assert !CapacityAt(handler, isStream, gone, events, k + 1);
    }
  }

  /** Reading ends with a capacity failure exactly when one came first. */
  lemma {:induction false} CapacityExactly(handler: Handler, isStream: bool, events: seq<Event>, st: Scan)
    requires !st.gotTerminal && !st.capacity && !st.wrote && (st.writeErr ==> isStream && handler == Codex)
    ensures ReadEvents(handler, isStream, events, st).capacity <==>
      exists k | 0 <= k < |events| :: CapacityAt(handler, isStream, st.writeErr, events, k)
    decreases |events|
  {
    if events != [] {
      var e, rest := events[0], events[1..];
      var st' := if isStream then StreamEvent(st, e) else CollectEvent(st, e);
      if e.kind == Failed(true) {
        assert CapacityAt(handler, isStream, st.writeErr, events, 0);
      } else if e.kind == Other {
        if isStream {
          var before := st.(gotTerminal := e.kind != Other);
          assert before == st && st' == Written(st, e.writes);
          WritesStay(st, e.writes);
          CapacityStays(st, e.writes);
        }
        LaterOnly(handler, isStream, st.writeErr, events);
        if st'.wrote {
          ShownIsNoCapacity(handler, isStream, rest, st');
        } else if !Stops(handler, st') {
          CapacityExactly(handler, isStream, rest, st');
        }
      } else if isStream {
        CapacityStays(st.(gotTerminal := true), e.writes);
        WritesStay(st.(gotTerminal := true), e.writes);
      }
    }
  }

  /** When another attempt is made, in terms of the reply alone. */
  lemma RetriedExactly(r: Request, attempt: nat, id: int)
    ensures Attempt(r, attempt, id).retry <==>
      match r.reply(attempt, id)
      case TransportError(_, _) => true
      case Status(_, _, _) => attempt < r.maxRetries && RetryableStatus(r.handler, r.reply(attempt, id))
      case Stream(events, _, ctxErr) =>
        CapacityFirst(r.handler, r.isStream, events)
          || (attempt < r.maxRetries && !ctxErr && Barren(r.isStream, events))
  {
    var reply := r.reply(attempt, id);
    if reply.Stream? {
      CapacityExactly(r.handler, r.isStream, reply.events, NOTHING_READ);
      ReadingWritesOnly(r.handler, r.isStream, reply.events, NOTHING_READ);
      BarrenIsUnseen(r.handler, r.isStream, reply.events, NOTHING_READ);
      hide ReadEvents, Barren, CapacityAt;
    }
  }

  /** Which replies make the loop avoid an account: every one but a stream that did not fail for capacity first. */
  lemma ExcludedExactly(r: Request, attempt: nat, id: int)
    ensures Attempt(r, attempt, id).exclude <==>
      !r.reply(attempt, id).Stream? || CapacityFirst(r.handler, r.isStream, r.reply(attempt, id).events)
  {
    var reply := r.reply(attempt, id);
    if reply.Stream? {
      CapacityExactly(r.handler, r.isStream, reply.events, NOTHING_READ);
      ReadingWritesOnly(r.handler, r.isStream, reply.events, NOTHING_READ);
      hide ReadEvents, CapacityAt;
    }
  }

  /** The last attempt goes on only with an error to report, so the loop never ends without an answer. */
  lemma ExhaustedWithError(r: Request, id: int)
    requires Attempt(r, r.maxRetries, id).retry
    ensures Attempt(r, r.maxRetries, id).lastErr
  {
  }

  /** An attempt both gives the client bytes and is followed by another exactly on /v1/messages, when the
      stream was barren and broke off with the client still there and attempts left. On the other routes never. */
  lemma RetriedAfterWriting(r: Request, attempt: nat, id: int)
    ensures Attempt(r, attempt, id).retry && Write in Attempt(r, attempt, id).log <==>
      && r.handler == Messages && attempt < r.maxRetries
      && r.reply(attempt, id).Stream? && !r.reply(attempt, id).ctxErr && Barren(r.isStream, r.reply(attempt, id).events)
  {
    var reply := r.reply(attempt, id);
    if reply.Stream? {
      ReadingWritesOnly(r.handler, r.isStream, reply.events, NOTHING_READ);
      BarrenIsUnseen(r.handler, r.isStream, reply.events, NOTHING_READ);
      hide ReadEvents, Barren;
      var st := ReadEvents(r.handler, r.isStream, reply.events, NOTHING_READ);
      assert OnlyWrites(st.log) && st.log != [] ==> st.log[0] == Write;
    }
  }

  // ---------------------------------------------------------------- whole requests

  /** On every path every account taken is released exactly once, before the next is taken. */
  lemma {:induction false} RunReleases(r: Request, attempt: nat, exclude: set<int>, lastErr: bool, lastStatus: int)
    ensures Disciplined(Run(r, attempt, exclude, lastErr, lastStatus), None)
    ensures Takes(Run(r, attempt, exclude, lastErr, lastStatus)) <= if attempt > r.maxRetries then 0
      else r.maxRetries + 1 - attempt
    decreases r.maxRetries + 1 - attempt
  {
    hide Attempt, NextAccount;
    if attempt <= r.maxRetries {
      var next := NextAccount(r, attempt, exclude);
      if next.Some? {
        var ended := Attempt(r, attempt, next.value);
        AttemptShape(r, attempt, next.value);
        var head := [Take(attempt, next.value)] + ended.log;
        assert head[1..] == ended.log;
        if ended.retry {
          var exclude' := if ended.exclude then exclude + {next.value} else exclude;
          var status := if ended.lastStatus != 0 then ended.lastStatus else lastStatus;
          RunReleases(r, attempt + 1, exclude', lastErr || ended.lastErr, status);
          var rest := Run(r, attempt + 1, exclude', lastErr || ended.lastErr, status);
          DisciplinedConcat(head, rest, None);
          TakesConcat(head, rest);
        } else {
          assert head + [] == head;
        }
      }
    }
  }

  /** From an attempt on, nothing that is excluded by then is taken, attempts come in order, and an account
      whose attempt excluded it is not taken again. */
  ghost predicate Avoids(r: Request, log: seq<Action>, attempt: nat, exclude: set<int>) {
    && (forall j | 0 <= j < |log| && log[j].Take? :: log[j].id !in exclude && log[j].attempt >= attempt)
    && (forall i, j | 0 <= i < j < |log| && log[i].Take? && log[j].Take? ::
          log[i].attempt < log[j].attempt && (Attempt(r, log[i].attempt, log[i].id).exclude ==> log[j].id != log[i].id))
  }

  lemma AvoidsConcat(r: Request, attempt: nat, exclude: set<int>, id: int, head: seq<Action>, rest: seq<Action>)
    requires |head| > 0 && head[0] == Take(attempt, id) && id !in exclude
    requires forall j | 0 < j < |head| :: !head[j].Take?
    requires Avoids(r, rest, attempt + 1, if Attempt(r, attempt, id).exclude then exclude + {id} else exclude)
    ensures Avoids(r, head + rest, attempt, exclude)
  {
    hide Attempt;
    var log := head + rest;
    forall j | 0 <= j < |log| && log[j].Take?
      ensures j == 0 || (j >= |head| && log[j] == rest[j - |head|])
    {
    }
  }

  lemma {:induction false} RunAvoids(r: Request, attempt: nat, exclude: set<int>, lastErr: bool, lastStatus: int)
    requires Honest(r)
    ensures Avoids(r, Run(r, attempt, exclude, lastErr, lastStatus), attempt, exclude)
    decreases r.maxRetries + 1 - attempt
  {
    hide Attempt;
    if attempt <= r.maxRetries {
      var next := NextAccount(r, attempt, exclude);
      if next.Some? {
        var ended := Attempt(r, attempt, next.value);
        AttemptShape(r, attempt, next.value);
        var head := [Take(attempt, next.value)] + ended.log;
        if ended.retry {
          var exclude' := if ended.exclude then exclude + {next.value} else exclude;
          var status := if ended.lastStatus != 0 then ended.lastStatus else lastStatus;
          RunAvoids(r, attempt + 1, exclude', lastErr || ended.lastErr, status);
          AvoidsConcat(r, attempt, exclude, next.value, head,
                       Run(r, attempt + 1, exclude', lastErr || ended.lastErr, status));
        }
      }
    }
  }

  /** The attempt meets a stream on /v1/messages that breaks off with nothing in it and the client still there. */
  ghost predicate MeetsBarren(r: Request, attempt: nat, id: int) {
    && r.handler == Messages
    && r.reply(attempt, id).Stream? && !r.reply(attempt, id).ctxErr && Barren(r.isStream, r.reply(attempt, id).events)
  }

  /** No attempt that another one follows meets such a stream. */
  ghost predicate BarrenOnlyLast(r: Request, log: seq<Action>) {
    forall i, j | 0 <= i < j < |log| && log[i].Take? && log[j].Take? :: !MeetsBarren(r, log[i].attempt, log[i].id)
  }

  ghost predicate TakesSome(log: seq<Action>) {
    exists j :: 0 <= j < |log| && log[j].Take?
  }

  lemma WritesInFront(head: seq<Action>, own: seq<Action>, rest: seq<Action>)
    requires |head| == |own| + 1 && head[0].Take? && forall j | 0 <= j < |own| :: head[1 + j] == own[j] && !own[j].Take?
    ensures NoTakeAfterWrite(head + rest) <==> NoTakeAfterWrite(rest) && !(Write in own && TakesSome(rest))
  {
    var log := head + rest;
    assert forall i | 0 < i < |head| :: log[i] == own[i - 1];
    assert forall i | 0 <= i < |rest| :: log[|head| + i] == rest[i];
    if Write in own && TakesSome(rest) {
      var i :| 0 <= i < |own| && own[i] == Write;
      var j :| 0 <= j < |rest| && rest[j].Take?;
      assert log[1 + i].Write? && log[|head| + j].Take?;
    } else if NoTakeAfterWrite(rest) {
      forall i, j | 0 <= i < j < |log| && log[i].Write?
        ensures !log[j].Take?
      {
        if i < |head| {
          assert own[i - 1] == Write && (j < |head| || log[j] == rest[j - |head|]);
        } else {
          assert rest[i - |head|].Write? && log[j] == rest[j - |head|];
        }
      }
    } else {
      var i, j :| 0 <= i < j < |rest| && rest[i].Write? && rest[j].Take?;
      assert log[|head| + i].Write? && log[|head| + j].Take?;
    }
  }

  lemma TakesInFront(r: Request, attempt: nat, id: int, head: seq<Action>, own: seq<Action>, rest: seq<Action>)
    requires |head| == |own| + 1 && head[0] == Take(attempt, id)
    requires forall j | 0 <= j < |own| :: head[1 + j] == own[j] && !own[j].Take?
    ensures BarrenOnlyLast(r, head + rest) <==>
      BarrenOnlyLast(r, rest) && !(MeetsBarren(r, attempt, id) && TakesSome(rest))
  {
    hide MeetsBarren;
    var log := head + rest;
    assert forall j | 0 < j < |head| :: !log[j].Take? by {
      assert forall j | 0 < j < |head| :: log[j] == own[j - 1];
    }
    if BarrenOnlyLast(r, log) {
      forall i, j | 0 <= i < j < |rest| && rest[i].Take? && rest[j].Take?
        ensures !MeetsBarren(r, rest[i].attempt, rest[i].id)
      {
        assert log[|head| + i] == rest[i] && log[|head| + j] == rest[j];
      }
      if TakesSome(rest) {
        var j :| 0 <= j < |rest| && rest[j].Take?;
        assert log[0] == Take(attempt, id) && log[|head| + j].Take?;
      }
    } else {
      var i, j :| 0 <= i < j < |log| && log[i].Take? && log[j].Take? && MeetsBarren(r, log[i].attempt, log[i].id);
      assert rest[j - |head|].Take?;
      if i > 0 {
        assert rest[i - |head|] == log[i];
      }
    }
  }

  /** One attempt in front of others. */
  lemma HeadThenRest(r: Request, attempt: nat, id: int, own: seq<Action>, rest: seq<Action>)
    requires forall j | 0 <= j < |own| :: !own[j].Take?
    ensures var log := [Take(attempt, id)] + own + rest;
      && (NoTakeAfterWrite(log) <==> NoTakeAfterWrite(rest) && !(Write in own && TakesSome(rest)))
      && (BarrenOnlyLast(r, log) <==> BarrenOnlyLast(r, rest) && !(MeetsBarren(r, attempt, id) && TakesSome(rest)))
  {
    var head := [Take(attempt, id)] + own;
    var log := head + rest;
    assert forall j | 0 <= j < |rest| :: log[|head| + j] == rest[j];
    assert forall j | 0 <= j < |own| :: head[1 + j] == own[j] && log[1 + j] == own[j];
    hide MeetsBarren;
    WritesInFront(head, own, rest);
    TakesInFront(r, attempt, id, head, own, rest);
  }

  lemma NoneTaken()
    ensures !TakesSome([])
  {
  }

  lemma OneWriteAtMost(r: Request, log: seq<Action>)
    requires |log| <= 1
    ensures NoTakeAfterWrite(log) && BarrenOnlyLast(r, log)
  {
  }

  lemma WrittenAndRetried(r: Request, attempt: nat, id: int)
    requires Attempt(r, attempt, id).retry
    ensures attempt < r.maxRetries ==> (Write in Attempt(r, attempt, id).log <==> MeetsBarren(r, attempt, id))
  {
    RetriedAfterWriting(r, attempt, id);
    hide Attempt, Barren;
  }

  lemma TakesNeedAttempts(r: Request, attempt: nat, exclude: set<int>, lastErr: bool, lastStatus: int)
    ensures TakesSome(Run(r, attempt, exclude, lastErr, lastStatus)) ==> attempt <= r.maxRetries
  {
    hide Attempt, NextAccount;
  }

  /** Nothing is taken once the client has been written to exactly when no attempt that another one follows meets a
      barren stream on /v1/messages; on the other routes it is always so. */
  lemma {:induction false} RunWritesLast(r: Request, attempt: nat, exclude: set<int>, lastErr: bool, lastStatus: int)
    ensures NoTakeAfterWrite(Run(r, attempt, exclude, lastErr, lastStatus))
      <==> BarrenOnlyLast(r, Run(r, attempt, exclude, lastErr, lastStatus))
    decreases r.maxRetries + 1 - attempt
  {
    hide Attempt, NextAccount, NoTakeAfterWrite, BarrenOnlyLast, MeetsBarren, TakesSome;
    var next := if attempt > r.maxRetries then None else NextAccount(r, attempt, exclude);
    if next.None? {
      OneWriteAtMost(r, Run(r, attempt, exclude, lastErr, lastStatus));
    } else {
      var id := next.value;
      var ended := Attempt(r, attempt, id);
      AttemptShape(r, attempt, id);
      if ended.retry {
        var exclude' := if ended.exclude then exclude + {id} else exclude;
        var status := if ended.lastStatus != 0 then ended.lastStatus else lastStatus;
        var rest := Run(r, attempt + 1, exclude', lastErr || ended.lastErr, status);
        RunWritesLast(r, attempt + 1, exclude', lastErr || ended.lastErr, status);
        HeadThenRest(r, attempt, id, ended.log, rest);
        WrittenAndRetried(r, attempt, id);
        TakesNeedAttempts(r, attempt + 1, exclude', lastErr || ended.lastErr, status);
      } else {
        HeadThenRest(r, attempt, id, ended.log, []);
        OneWriteAtMost(r, []);
        NoneTaken();
      }
    }
  }

  /** The request as a whole: accounts released exactly once, a bounded number of attempts, failed accounts
      avoided, and no attempt after the client has seen anything, exactly but for barren streams on /v1/messages. */
  lemma RequestIsSafe(r: Request)
    requires Honest(r)
    ensures Disciplined(Serve(r), None) && Takes(Serve(r)) <= r.maxRetries + 1
    ensures Avoids(r, Serve(r), 0, r.planned)
    ensures NoTakeAfterWrite(Serve(r)) <==> BarrenOnlyLast(r, Serve(r))
    ensures r.handler == Codex ==> NoTakeAfterWrite(Serve(r))
  {
    RunReleases(r, 0, r.planned, false, 0);
    RunAvoids(r, 0, r.planned, false, 0);
    RunWritesLast(r, 0, r.planned, false, 0);
    hide Run, Disciplined, Takes, Avoids, NoTakeAfterWrite;
  }

  /** On /v1/messages a stream that breaks off before its first event: the client is sent a whole empty message
      and the same account is tried again. */
  lemma BrokenStreamIsRetriedAfterWriting() returns (r: Request)
    ensures Honest(r) && r.handler == Messages
    ensures Serve(r) == [Take(0, 7), Write, Release(7), Take(1, 7), Write, Release(7)]
    ensures !NoTakeAfterWrite(Serve(r))
  {
    r := Request(Messages, true, 1, {}, {}, (a, s, exclude) => if 7 in exclude then None else Some(7),
                 (a, id) => Stream([], false, false));
    assert Attempt(r, 0, 7) == Ended([Write, Release(7)], true, false, true, 0);
    assert Attempt(r, 1, 7) == Ended([Write, Release(7)], false, false, false, 0);
    var log := Serve(r);
    assert Run(r, 1, {}, true, 0) == [Take(1, 7), Write, Release(7)];
    assert log[1].Write? && log[3].Take?;
  }

  // ---------------------------------------------------------------- the loop

  method WriteChunks(before: Scan, writes: seq<bool>) returns (st: Scan)
    ensures st == Written(before, writes)
  {
    st := before;
    var i := 0;
    while i < |writes|
      invariant 0 <= i <= |writes| && Written(before, writes) == Written(st, writes[i..])
    {
      if !st.writeErr {
        if writes[i] {
          st := st.(wrote := true, log := st.log + [Write]);
        } else {
          st := st.(writeErr := true);
        }
      }
      i := i + 1;
    }
  }

  /** The reading loop with its callback. */
  method ReadStream(handler: Handler, isStream: bool, events: seq<Event>) returns (st: Scan)
    ensures st == ReadEvents(handler, isStream, events, NOTHING_READ)
  {
    st := NOTHING_READ;
    var i := 0;
    var goOn := true;
    while i < |events| && goOn
      invariant 0 <= i <= |events|
      invariant ReadEvents(handler, isStream, events, NOTHING_READ) ==
        if goOn then ReadEvents(handler, isStream, events[i..], st) else st
    {
      var e := events[i];
      if !isStream {
        st := CollectEvent(st, e);
      } else if e.kind == Failed(true) && !st.wrote {
        st := st.(gotTerminal := true, capacity := true);
      } else {
        st := WriteChunks(st.(gotTerminal := e.kind != Other), e.writes);
      }
      goOn := !st.gotTerminal && !(handler == Messages && st.writeErr);
      i := i + 1;
    }
  }

  /** The body of the loop after an account was taken. */
  method TryAccount(r: Request, attempt: nat, id: int) returns (ended: Ended)
    ensures ended == Attempt(r, attempt, id)
  {
    hide ReadEvents, GivesUp, RetryableStatus;
    var reply := r.reply(attempt, id);
    match reply {
      case TransportError(_, _) =>
        var log := [Release(id)];
        var giveUp := GivesUp(reply);
        if giveUp {
          return Ended(log + [Write], false, true, false, 0);
        }
        return Ended(log, true, true, true, 0);
      case Status(code, _, _) =>
        var log := [Release(id)];
        if RetryableStatus(r.handler, reply) && attempt < r.maxRetries {
          return Ended(log, true, true, false, code);
        }
        return Ended(log + [Write], false, true, false, 0);
      case Stream(events, readErr, ctxErr) =>
        var st := ReadStream(r.handler, r.isStream, events);
        var log := st.log;
        if r.handler == Messages {
          if r.isStream {
            if !st.writeErr && !st.gotTerminal {
              log := log + [Write];
            }
          } else if !st.capacity {
            log := log + [Write];
          }
        }
        if st.capacity && !st.wrote {
          return Ended(log + [Release(id)], true, true, true, 0);
        }
        var outcome := ClassifyStreamOutcome(ctxErr, readErr, st.writeErr, st.gotTerminal);
        if ShouldTransparentRetryStream(outcome, attempt, r.maxRetries, st.wrote, ctxErr, st.writeErr) {
          return Ended(log + [Release(id)], true, false, true, 0);
        }
        if r.handler == Codex && !r.isStream {
          log := log + [Write];
        }
        return Ended(log + [Release(id)], false, false, false, 0);
    }
  }

  lemma RunOver(r: Request, attempt: nat, exclude: set<int>, lastErr: bool, lastStatus: int)
    requires attempt > r.maxRetries
    ensures Run(r, attempt, exclude, lastErr, lastStatus) == if lastErr || lastStatus != 0 then [Write] else []
  {
  }

  /** What the loop still has to do after one turn. */
  function Rest(r: Request, attempt: nat, exclude: set<int>, lastErr: bool, lastStatus: int, id: int): seq<Action>
    requires attempt <= r.maxRetries
  {
    var ended := Attempt(r, attempt, id);
    if !ended.retry then []
    else Run(r, attempt + 1, if ended.exclude then exclude + {id} else exclude,
             lastErr || ended.lastErr, if ended.lastStatus != 0 then ended.lastStatus else lastStatus)
  }

  lemma RunStep(r: Request, attempt: nat, exclude: set<int>, lastErr: bool, lastStatus: int)
    requires attempt <= r.maxRetries
    ensures var next := NextAccount(r, attempt, exclude);
      Run(r, attempt, exclude, lastErr, lastStatus) ==
        if next.None? then [Write]
        else
          [Take(attempt, next.value)] + Attempt(r, attempt, next.value).log
          + Rest(r, attempt, exclude, lastErr, lastStatus, next.value)
  {
    hide Attempt, NextAccount;
  }

  lemma Reassociate(log: seq<Action>, a: seq<Action>, b: seq<Action>, rest: seq<Action>)
    ensures log + (a + b + rest) == log + a + b + rest
  {
  }

  /** The handlers' loop over attempts. */
  method ServeRequest(r: Request) returns (log: seq<Action>)
    ensures log == Serve(r)
  {
    hide Attempt, NextAccount, Run;
    log := [];
    var exclude, lastErr, lastStatus := r.planned, false, 0;
    var attempt := 0;
    while attempt <= r.maxRetries
      invariant 0 <= attempt <= r.maxRetries + 1
      invariant Serve(r) == log + Run(r, attempt, exclude, lastErr, lastStatus)
    {
      RunStep(r, attempt, exclude, lastErr, lastStatus);
      var next := NextAccount(r, attempt, exclude);
      if next.None? {
        return log + [Write];
      }
      var id := next.value;
      ghost var before := log;
      log := log + [Take(attempt, id)];
      var ended := TryAccount(r, attempt, id);
      Reassociate(before, [Take(attempt, id)], ended.log, Rest(r, attempt, exclude, lastErr, lastStatus, id));
      log := log + ended.log;
      if !ended.retry {
        return log;
      }
      if ended.exclude {
        exclude := exclude + {id};
      }
      lastErr := lastErr || ended.lastErr;
      if ended.lastStatus != 0 {
        lastStatus := ended.lastStatus;
      }
      attempt := attempt + 1;
    }
    RunOver(r, attempt, exclude, lastErr, lastStatus);
    if lastErr {
      log := log + [Write];
    } else if lastStatus != 0 {
      log := log + [Write];
    }
  }
}
