/** What the client of a request gets, told from the upstream replies: how often it is written to in each attempt and
    in the whole request, that a request that is not streamed is answered once, and whose account is taken. */
module RetryAnswers {
  import opened RetryLoop
  import opened Wrappers

  // ---------------------------------------------------------------- what a stream gives the client

  /** The pieces that a stream calls for, up to and with the first event that ends the response. */
  function PiecesOf(events: seq<Event>): seq<bool> {
    if events == [] then []
    else events[0].writes + if events[0].kind == Other then PiecesOf(events[1..]) else []
  }

  predicate HasTerminal(events: seq<Event>) {
    exists k | 0 <= k < |events| :: events[k].kind != Other
  }

  /** How many pieces can be written before the first that cannot. */
  function Leading(pieces: seq<bool>): (n: nat)
    ensures n <= |pieces|
  {
    if pieces == [] || !pieces[0] then 0 else 1 + Leading(pieces[1..])
  }

  function Writes(n: nat): seq<Action> {
    seq(n, i => Write)
  }

  lemma {:induction false} LeadingConcat(a: seq<bool>, b: seq<bool>)
    ensures Leading(a + b) == if Leading(a) == |a| then |a| + Leading(b) else Leading(a)
  {
    if a == [] {
      assert a + b == b;
    } else {
      assert (a + b)[1..] == a[1..] + b;
      LeadingConcat(a[1..], b);
    }
  }

  lemma {:induction false} WrittenExactly(st: Scan, writes: seq<bool>)
    requires !st.writeErr && (st.wrote <==> st.log != [])
    ensures var end := Written(st, writes);
      && end.log == st.log + Writes(Leading(writes)) && (end.wrote <==> end.log != [])
      && (end.writeErr <==> Leading(writes) < |writes|)
      && end.gotTerminal == st.gotTerminal && end.capacity == st.capacity
    decreases |writes|
  {
    if writes != [] && writes[0] {
      WrittenExactly(st.(wrote := true, log := st.log + [Write]), writes[1..]);
      assert st.log + [Write] + Writes(Leading(writes[1..])) == st.log + Writes(Leading(writes));
    } else {
      assert st.log + Writes(0) == st.log;
    }
  }

  /** A client that is gone gets nothing more, and no end of the response is missed. */
  lemma {:induction false} NothingMore(handler: Handler, events: seq<Event>, st: Scan)
    requires st.writeErr && !st.gotTerminal
    ensures ReadEvents(handler, true, events, st).log == st.log && ReadEvents(handler, true, events, st).writeErr
    decreases |events|
  {
    if events != [] {
      var st' := StreamEvent(st, events[0]);
      if !Stops(handler, st') {
        NothingMore(handler, events[1..], st');
      }
    }
  }

  lemma TerminalLater(events: seq<Event>)
    requires events != []
    ensures HasTerminal(events) <==> events[0].kind != Other || HasTerminal(events[1..])
  {
    assert forall k | 0 <= k < |events[1..]| :: events[1..][k] == events[k + 1];
  }

  lemma WritesConcat(log: seq<Action>, m: nat, n: nat)
    ensures log + Writes(m) + Writes(n) == log + Writes(m + n)
  {
  }

  lemma EventExactly(st: Scan, e: Event)
    requires !st.writeErr && (st.wrote <==> st.log != []) && !(e.kind == Failed(true) && !st.wrote)
    ensures var end := StreamEvent(st, e);
      && end.log == st.log + Writes(Leading(e.writes)) && (end.wrote <==> end.log != [])
      && (end.writeErr <==> Leading(e.writes) < |e.writes|)
      && (end.gotTerminal <==> e.kind != Other) && end.capacity == st.capacity
  {
    hide Written, Leading;
    WrittenExactly(st.(gotTerminal := e.kind != Other), e.writes);
  }

  /** Without a capacity failure first, every piece that can be written is, in order, up to the end of the response. */
  lemma {:induction false} StreamExactly(handler: Handler, events: seq<Event>, st: Scan)
    requires !st.writeErr && !st.gotTerminal && !st.capacity && (st.wrote <==> st.log != [])
    requires !ReadEvents(handler, true, events, st).capacity
    ensures var end := ReadEvents(handler, true, events, st);
      && end.log == st.log + Writes(Leading(PiecesOf(events)))
      && (end.writeErr <==> Leading(PiecesOf(events)) < |PiecesOf(events)|)
      && (!end.writeErr ==> (end.gotTerminal <==> HasTerminal(events)))
    decreases |events|
  {
    if events == [] {
      assert st.log + Writes(0) == st.log;
    } else {
      var e, rest := events[0], events[1..];
      var st' := StreamEvent(st, e);
      assert !(e.kind == Failed(true) && !st.wrote);
      EventExactly(st, e);
      LeadingConcat(e.writes, if e.kind == Other then PiecesOf(rest) else []);
      TerminalLater(events);
      hide HasTerminal, Leading, StreamEvent, Writes;
      if e.kind != Other {
        assert e.writes + [] == e.writes;
      } else if st'.writeErr {
        NothingMore(handler, rest, st');
      } else {
        StreamExactly(handler, rest, st');
        WritesConcat(st.log, |e.writes|, Leading(PiecesOf(rest)));
      }
    }
  }

  // ---------------------------------------------------------------- one attempt

  /** Another attempt follows this one, or the request is out of attempts. */
  ghost predicate GoesOn(r: Request, attempt: nat, id: int) {
    match r.reply(attempt, id)
    case TransportError(_, _) => true
    case Status(code, toolNotSupported, workspaceDeactivated) =>
      && attempt < r.maxRetries
      && (|| code == 401 || code == 429 || code == 500 || code == 503 || workspaceDeactivated
          || (r.handler == Codex && code == 400 && toolNotSupported))
    case Stream(events, _, ctxErr) =>
      || CapacityFirst(r.handler, r.isStream, events)
      || (attempt < r.maxRetries && !ctxErr && Barren(r.isStream, events))
  }

  lemma GoesOnIsRetried(r: Request, attempt: nat, id: int)
    ensures Attempt(r, attempt, id).retry <==> GoesOn(r, attempt, id)
  {
    RetriedExactly(r, attempt, id);
    hide Attempt, CapacityFirst, Barren;
  }

  /** How often the client is written to in an attempt: not before another one, except that /v1/messages completes a
      stream that broke off and answers what it collected in any case; otherwise an error or a collected response once,
      and a streamed one as far as the client takes it. */
  ghost function AnswersIn(r: Request, attempt: nat, id: int): nat {
    match r.reply(attempt, id)
    case TransportError(_, _) => 0
    case Status(_, _, _) => if GoesOn(r, attempt, id) then 0 else 1
    case Stream(events, _, ctxErr) =>
      if CapacityFirst(r.handler, r.isStream, events) then 0
      else if r.isStream then
        var pieces := PiecesOf(events);
        Leading(pieces)
        + if r.handler == Messages && Leading(pieces) == |pieces| && !HasTerminal(events) then 1 else 0
      else if r.handler == Codex && GoesOn(r, attempt, id) then 0
      else 1
  }

  lemma CapacityLog(r: Request, attempt: nat, id: int)
    requires r.reply(attempt, id).Stream? && r.isStream
    requires CapacityFirst(r.handler, true, r.reply(attempt, id).events)
    ensures Attempt(r, attempt, id).log == [Release(id)]
  {
    var events := r.reply(attempt, id).events;
    CapacityExactly(r.handler, true, events, NOTHING_READ);
    ReadingWritesOnly(r.handler, true, events, NOTHING_READ);
    hide ReadEvents, CapacityAt;
  }

  lemma StreamedLog(r: Request, attempt: nat, id: int)
    requires r.reply(attempt, id).Stream? && r.isStream
    ensures Attempt(r, attempt, id).log == Writes(AnswersIn(r, attempt, id)) + [Release(id)]
  {
    var events := r.reply(attempt, id).events;
    if CapacityFirst(r.handler, true, events) {
      CapacityLog(r, attempt, id);
      hide Attempt;
      assert Writes(0) + [Release(id)] == [Release(id)];
    } else {
      CapacityExactly(r.handler, true, events, NOTHING_READ);
      StreamExactly(r.handler, events, NOTHING_READ);
      hide ReadEvents, CapacityFirst, CapacityAt, Leading, PiecesOf, HasTerminal, GoesOn;
      var n := Leading(PiecesOf(events));
      assert [] + Writes(n) == Writes(n);
      assert Writes(n) + [Write] == Writes(n + 1);
    }
  }

  lemma CollectedLog(r: Request, attempt: nat, id: int)
    requires r.reply(attempt, id).Stream? && !r.isStream
    ensures Attempt(r, attempt, id).log == Writes(AnswersIn(r, attempt, id)) + [Release(id)]
  {
    var events := r.reply(attempt, id).events;
    var st := ReadEvents(r.handler, false, events, NOTHING_READ);
    CapacityExactly(r.handler, false, events, NOTHING_READ);
    ReadingWritesOnly(r.handler, false, events, NOTHING_READ);
    GoesOnIsRetried(r, attempt, id);
    hide ReadEvents, CapacityAt, GoesOn;
    assert Writes(1) == [Write];
  }

  /** What an attempt does, in order: with a stream the client is written to while the account is held, with an error
      after it was released. */
  lemma AttemptExactly(r: Request, attempt: nat, id: int)
    ensures var writes := Writes(AnswersIn(r, attempt, id));
      Attempt(r, attempt, id).log ==
        if r.reply(attempt, id).Stream? then writes + [Release(id)] else [Release(id)] + writes
  {
    if !r.reply(attempt, id).Stream? {
      GoesOnIsRetried(r, attempt, id);
      hide GoesOn;
      assert Writes(1) == [Write] && Writes(0) == [];
    } else if r.isStream {
      StreamedLog(r, attempt, id);
    } else {
      CollectedLog(r, attempt, id);
    }
  }

  // ---------------------------------------------------------------- the whole request

  function WritesIn(log: seq<Action>): nat {
    if log == [] then 0 else (if log[0] == Write then 1 else 0) + WritesIn(log[1..])
  }

  /** What the attempts of a log write, all together. */
  ghost function AnswersOver(r: Request, log: seq<Action>): nat {
    if log == [] then 0
    else (if log[0].Take? then AnswersIn(r, log[0].attempt, log[0].id) else 0) + AnswersOver(r, log[1..])
  }

  /** Some attempt was the last because its reply settled the request. */
  ghost predicate Settled(r: Request, log: seq<Action>) {
    exists j | 0 <= j < |log| :: log[j].Take? && !GoesOn(r, log[j].attempt, log[j].id)
  }

  lemma {:induction false} CountConcat(r: Request, a: seq<Action>, b: seq<Action>)
    ensures WritesIn(a + b) == WritesIn(a) + WritesIn(b)
    ensures AnswersOver(r, a + b) == AnswersOver(r, a) + AnswersOver(r, b)
    decreases |a|
  {
    hide AnswersIn;
    if a == [] {
      assert a + b == b;
    } else {
      assert (a + b)[1..] == a[1..] + b;
      CountConcat(r, a[1..], b);
    }
  }

  lemma SettledConcat(r: Request, a: seq<Action>, b: seq<Action>)
    ensures Settled(r, a + b) <==> Settled(r, a) || Settled(r, b)
  {
    hide GoesOn;
    var ab := a + b;
    assert forall j | 0 <= j < |a| :: ab[j] == a[j];
    assert forall j | 0 <= j < |b| :: ab[|a| + j] == b[j];
  }

  lemma {:induction false} CountWrites(r: Request, n: nat)
    ensures WritesIn(Writes(n)) == n && AnswersOver(r, Writes(n)) == 0 && !Settled(r, Writes(n))
  {
    if n > 0 {
      assert Writes(n)[1..] == Writes(n - 1);
      CountWrites(r, n - 1);
    }
  }

  lemma CountOne(r: Request, action: Action)
    ensures WritesIn([action]) == if action == Write then 1 else 0
    ensures AnswersOver(r, [action]) == if action.Take? then AnswersIn(r, action.attempt, action.id) else 0
    ensures Settled(r, [action]) <==> action.Take? && !GoesOn(r, action.attempt, action.id)
  {
    hide AnswersIn, GoesOn;
    assert [action][1..] == [] && [action][0] == action;
    assert WritesIn([]) == 0 && AnswersOver(r, []) == 0;
  }

  /** One attempt, its account taken. */
  lemma CountAttempt(r: Request, attempt: nat, id: int)
    ensures var head := [Take(attempt, id)] + Attempt(r, attempt, id).log;
      && WritesIn(head) == AnswersIn(r, attempt, id) == AnswersOver(r, head)
      && (Settled(r, head) <==> !GoesOn(r, attempt, id))
  {
    hide Attempt, AnswersIn, GoesOn, WritesIn, AnswersOver, Settled, Writes;
    AttemptExactly(r, attempt, id);
    var n := AnswersIn(r, attempt, id);
    var own := Attempt(r, attempt, id).log;
    CountOne(r, Take(attempt, id));
    CountOne(r, Release(id));
    CountWrites(r, n);
    CountConcat(r, [Take(attempt, id)], own);
    SettledConcat(r, [Take(attempt, id)], own);
    CountConcat(r, Writes(n), [Release(id)]);
    CountConcat(r, [Release(id)], Writes(n));
    SettledConcat(r, Writes(n), [Release(id)]);
    SettledConcat(r, [Release(id)], Writes(n));
  }

  /** The client is written to as often as the attempts do, and once more when none of them settled the request. */
  lemma {:induction false} RunWrites(r: Request, attempt: nat, exclude: set<int>, lastErr: bool, lastStatus: int)
    requires attempt <= r.maxRetries || lastErr
    ensures var log := Run(r, attempt, exclude, lastErr, lastStatus);
      WritesIn(log) == AnswersOver(r, log) + if Settled(r, log) then 0 else 1
    decreases r.maxRetries + 1 - attempt
  {
    hide Attempt, NextAccount, AnswersIn, GoesOn, WritesIn, AnswersOver, Settled;
    CountOne(r, Write);
    if attempt <= r.maxRetries {
      var next := NextAccount(r, attempt, exclude);
      if next.Some? {
        var id := next.value;
        var ended := Attempt(r, attempt, id);
        var head := [Take(attempt, id)] + ended.log;
        var rest := Rest(r, attempt, exclude, lastErr, lastStatus, id);
        RunStep(r, attempt, exclude, lastErr, lastStatus);
        CountAttempt(r, attempt, id);
        GoesOnIsRetried(r, attempt, id);
        CountConcat(r, head, rest);
        SettledConcat(r, head, rest);
        if ended.retry {
          if attempt == r.maxRetries {
            ExhaustedWithError(r, id);
          }
          RunWrites(r, attempt + 1, if ended.exclude then exclude + {id} else exclude, lastErr || ended.lastErr,
                    if ended.lastStatus != 0 then ended.lastStatus else lastStatus);
        } else {
          CountWrites(r, 0);
          assert Writes(0) == [];
        }
      }
    }
  }

  lemma {:induction false} WrittenMeansCounted(log: seq<Action>)
    ensures WritesIn(log) > 0 <==> Write in log
  {
    if log != [] {
      WrittenMeansCounted(log[1..]);
      assert log == [log[0]] + log[1..];
    }
  }

  lemma {:induction false} AnswersSomewhere(r: Request, log: seq<Action>)
    ensures AnswersOver(r, log) > 0 <==>
      exists j | 0 <= j < |log| :: log[j].Take? && AnswersIn(r, log[j].attempt, log[j].id) > 0
  {
    hide AnswersIn;
    if log != [] {
      var rest := log[1..];
      AnswersSomewhere(r, rest);
      if j :| 0 <= j < |log| && log[j].Take? && AnswersIn(r, log[j].attempt, log[j].id) > 0 {
        assert j > 0 ==> rest[j - 1] == log[j];
      }
      if j :| 0 <= j < |rest| && rest[j].Take? && AnswersIn(r, rest[j].attempt, rest[j].id) > 0 {
        assert log[j + 1] == rest[j];
      }
    }
  }

  /** How often, and whether at all, the client of a request is written to. */
  lemma WritesExactly(r: Request)
    ensures WritesIn(Serve(r)) == AnswersOver(r, Serve(r)) + if Settled(r, Serve(r)) then 0 else 1
    ensures var log := Serve(r);
      Write in log <==>
        !Settled(r, log) || exists j | 0 <= j < |log| :: log[j].Take? && AnswersIn(r, log[j].attempt, log[j].id) > 0
  {
    hide Run, Settled, AnswersIn;
    RunWrites(r, 0, r.planned, false, 0);
    WrittenMeansCounted(Serve(r));
    AnswersSomewhere(r, Serve(r));
  }

  lemma CollectedAnswer(r: Request, attempt: nat, id: int)
    requires !r.isStream
    ensures !GoesOn(r, attempt, id) ==> AnswersIn(r, attempt, id) == 1
    ensures r.handler == Codex && GoesOn(r, attempt, id) ==> AnswersIn(r, attempt, id) == 0
  {
    hide CapacityFirst, Barren;
  }

  lemma {:induction false} RunAnswers(r: Request, attempt: nat, exclude: set<int>, lastErr: bool, lastStatus: int)
    requires !r.isStream && (attempt <= r.maxRetries || lastErr)
    ensures WritesIn(Run(r, attempt, exclude, lastErr, lastStatus)) >= 1
    ensures r.handler == Codex ==> WritesIn(Run(r, attempt, exclude, lastErr, lastStatus)) == 1
    decreases r.maxRetries + 1 - attempt
  {
    hide Attempt, NextAccount, AnswersIn, GoesOn, WritesIn;
    CountOne(r, Write);
    if attempt <= r.maxRetries {
      var next := NextAccount(r, attempt, exclude);
      if next.Some? {
        var id := next.value;
        var ended := Attempt(r, attempt, id);
        RunStep(r, attempt, exclude, lastErr, lastStatus);
        CountAttempt(r, attempt, id);
        GoesOnIsRetried(r, attempt, id);
        CollectedAnswer(r, attempt, id);
        CountConcat(r, [Take(attempt, id)] + ended.log, Rest(r, attempt, exclude, lastErr, lastStatus, id));
        if ended.retry {
          if attempt == r.maxRetries {
            ExhaustedWithError(r, id);
          }
          RunAnswers(r, attempt + 1, if ended.exclude then exclude + {id} else exclude, lastErr || ended.lastErr,
                     if ended.lastStatus != 0 then ended.lastStatus else lastStatus);
        } else {
          CountWrites(r, 0);
          assert Writes(0) == [];
        }
      }
    }
  }

  /** A request that is not streamed is answered, whatever scheduler and upstream do, and on the Codex routes once. */
  lemma AnsweredOnce(r: Request)
    requires !r.isStream
    ensures Write in Serve(r)
    ensures r.handler == Codex ==> WritesIn(Serve(r)) == 1
  {
    RunAnswers(r, 0, r.planned, false, 0);
    WrittenMeansCounted(Serve(r));
  }

  // ---------------------------------------------------------------- whose account is taken

  /** The reply makes the request avoid the account. */
  ghost predicate Shunned(r: Request, attempt: nat, id: int) {
    !r.reply(attempt, id).Stream? || CapacityFirst(r.handler, r.isStream, r.reply(attempt, id).events)
  }

  /** The accounts that the attempts of a log made the request avoid. */
  ghost function ShunnedIn(r: Request, log: seq<Action>): set<int> {
    set j | 0 <= j < |log| && log[j].Take? && Shunned(r, log[j].attempt, log[j].id) :: log[j].id
  }

  /** What the scheduler answers about the preferred plans; they are not asked for without a preference, nor on
      /v1/messages. */
  function Preferred(r: Request, attempt: nat, exclude: set<int>): Option<int> {
    if r.handler == Codex && r.notPreferred != {} then r.take(attempt, 0, exclude + r.notPreferred) else None
  }

  /** An account of the preferred plans if there is one, else any, else one that turned up while waiting. */
  predicate OfferedFirst(r: Request, attempt: nat, exclude: set<int>, id: int) {
    || Preferred(r, attempt, exclude) == Some(id)
    || (Preferred(r, attempt, exclude) == None
        && (|| r.take(attempt, 1, exclude) == Some(id)
            || (r.take(attempt, 1, exclude) == None && r.take(attempt, 2, exclude) == Some(id))))
  }

  predicate NoneOffered(r: Request, attempt: nat, exclude: set<int>) {
    && Preferred(r, attempt, exclude) == None
    && r.take(attempt, 1, exclude) == None && r.take(attempt, 2, exclude) == None
  }

  lemma NextIsOffered(r: Request, attempt: nat, exclude: set<int>)
    ensures NextAccount(r, attempt, exclude).None? <==> NoneOffered(r, attempt, exclude)
    ensures forall id :: NextAccount(r, attempt, exclude) == Some(id) <==> OfferedFirst(r, attempt, exclude, id)
  {
  }

  /** The takes of a log are numbered on from `attempt`, and each is of the account offered first among those not yet
      avoided. */
  ghost predicate TakesOffered(r: Request, log: seq<Action>, attempt: nat, exclude: set<int>) {
    forall j | 0 <= j < |log| && log[j].Take? ::
      && log[j].attempt == attempt + Takes(log[..j])
      && OfferedFirst(r, log[j].attempt, exclude + ShunnedIn(r, log[..j]), log[j].id)
  }

  lemma ShunnedConcat(r: Request, a: seq<Action>, b: seq<Action>)
    ensures ShunnedIn(r, a + b) == ShunnedIn(r, a) + ShunnedIn(r, b)
  {
    hide Shunned;
    var ab := a + b;
    assert forall j | 0 <= j < |a| :: ab[j] == a[j];
    assert forall j | 0 <= j < |b| :: ab[|a| + j] == b[j];
  }

  lemma ShunnedInHead(r: Request, attempt: nat, id: int, own: seq<Action>)
    requires forall j | 0 <= j < |own| :: !own[j].Take?
    ensures ShunnedIn(r, [Take(attempt, id)] + own) == if Shunned(r, attempt, id) then {id} else {}
  {
    hide Shunned;
    var head := [Take(attempt, id)] + own;
    assert head[0] == Take(attempt, id) && forall j | 0 < j < |head| :: head[j] == own[j - 1];
  }

  lemma TakesOne(attempt: nat, id: int)
    ensures Takes([Take(attempt, id)]) == 1
  {
    assert [Take(attempt, id)][1..] == [];
  }

  lemma NothingTaken(r: Request)
    ensures Takes([]) == 0 && ShunnedIn(r, []) == {}
  {
  }

  lemma OfferedConcat(r: Request, attempt: nat, exclude: set<int>, id: int, own: seq<Action>, rest: seq<Action>)
    requires (forall j | 0 <= j < |own| :: !own[j].Take?) && Takes(own) == 0
    requires OfferedFirst(r, attempt, exclude, id)
    requires TakesOffered(r, rest, attempt + 1, if Shunned(r, attempt, id) then exclude + {id} else exclude)
    ensures TakesOffered(r, [Take(attempt, id)] + own + rest, attempt, exclude)
  {
    hide OfferedFirst, Shunned, ShunnedIn, Takes;
    var head := [Take(attempt, id)] + own;
    var log := head + rest;
    TakesOne(attempt, id);
    TakesConcat([Take(attempt, id)], own);
    ShunnedInHead(r, attempt, id, own);
    forall j | 0 <= j < |log| && log[j].Take?
      ensures
        && log[j].attempt == attempt + Takes(log[..j])
        && OfferedFirst(r, log[j].attempt, exclude + ShunnedIn(r, log[..j]), log[j].id)
    {
      if j < |head| {
        assert log[j] == head[j] && j == 0;
        NothingTaken(r);
        assert log[..0] == [] && exclude + {} == exclude;
      } else {
        var k := j - |head|;
        assert log[j] == rest[k] && log[..j] == head + rest[..k];
        TakesConcat(head, rest[..k]);
        ShunnedConcat(r, head, rest[..k]);
        assert exclude + ShunnedIn(r, log[..j]) == exclude + ShunnedIn(r, head) + ShunnedIn(r, rest[..k]);
        assert exclude + {} == exclude;
      }
    }
  }

  lemma NoTakeIsOffered(r: Request, log: seq<Action>, attempt: nat, exclude: set<int>)
    requires |log| <= 1 && (log == [] || !log[0].Take?)
    ensures TakesOffered(r, log, attempt, exclude)
  {
  }

  lemma ShunnedIsExcluded(r: Request, attempt: nat, id: int)
    ensures Attempt(r, attempt, id).exclude <==> Shunned(r, attempt, id)
  {
    ExcludedExactly(r, attempt, id);
    hide Attempt, CapacityFirst;
  }

  lemma {:induction false} RunTakesOffered(r: Request, attempt: nat, exclude: set<int>, lastErr: bool, lastStatus: int)
    ensures TakesOffered(r, Run(r, attempt, exclude, lastErr, lastStatus), attempt, exclude)
    decreases r.maxRetries + 1 - attempt
  {
    hide Attempt, NextAccount, TakesOffered, OfferedFirst, NoneOffered, Shunned;
    var next := if attempt > r.maxRetries then None else NextAccount(r, attempt, exclude);
    if next.None? {
      NoTakeIsOffered(r, Run(r, attempt, exclude, lastErr, lastStatus), attempt, exclude);
    } else {
      var id := next.value;
      var ended := Attempt(r, attempt, id);
      NextIsOffered(r, attempt, exclude);
      AttemptShape(r, attempt, id);
      ShunnedIsExcluded(r, attempt, id);
      RunStep(r, attempt, exclude, lastErr, lastStatus);
      var exclude' := if ended.exclude then exclude + {id} else exclude;
      if ended.retry {
        RunTakesOffered(r, attempt + 1, exclude', lastErr || ended.lastErr,
                        if ended.lastStatus != 0 then ended.lastStatus else lastStatus);
      } else {
        NoTakeIsOffered(r, [], attempt + 1, exclude');
      }
      OfferedConcat(r, attempt, exclude, id, ended.log, Rest(r, attempt, exclude, lastErr, lastStatus, id));
    }
  }

  /** Attempts that are left over when no reply has settled the request are left for want of an account. */
  ghost predicate StopsForWant(r: Request, log: seq<Action>, attempt: nat, exclude: set<int>) {
    !Settled(r, log) && attempt + Takes(log) <= r.maxRetries ==>
      NoneOffered(r, attempt + Takes(log), exclude + ShunnedIn(r, log))
  }

  lemma StopsNow(r: Request, attempt: nat, exclude: set<int>)
    requires attempt > r.maxRetries || NoneOffered(r, attempt, exclude)
    ensures StopsForWant(r, [Write], attempt, exclude) && StopsForWant(r, [], attempt, exclude)
  {
    hide NoneOffered;
    NothingTaken(r);
    assert [Write][1..] == [] && [Write][0] == Write && exclude + {} == exclude;
    assert ShunnedIn(r, [Write]) == {};
  }

  lemma StopsLater(r: Request, attempt: nat, exclude: set<int>, id: int, own: seq<Action>, rest: seq<Action>)
    requires (forall j | 0 <= j < |own| :: !own[j].Take?) && Takes(own) == 0
    requires Settled(r, [Take(attempt, id)] + own)
      || StopsForWant(r, rest, attempt + 1, if Shunned(r, attempt, id) then exclude + {id} else exclude)
    ensures StopsForWant(r, [Take(attempt, id)] + own + rest, attempt, exclude)
  {
    hide NoneOffered, Settled, Shunned, ShunnedIn, Takes;
    var head := [Take(attempt, id)] + own;
    SettledConcat(r, head, rest);
    TakesOne(attempt, id);
    TakesConcat([Take(attempt, id)], own);
    TakesConcat(head, rest);
    ShunnedInHead(r, attempt, id, own);
    ShunnedConcat(r, head, rest);
    assert exclude + ShunnedIn(r, head + rest) == exclude + ShunnedIn(r, head) + ShunnedIn(r, rest);
    assert exclude + {} == exclude;
  }

  lemma {:induction false} RunStops(r: Request, attempt: nat, exclude: set<int>, lastErr: bool, lastStatus: int)
    requires attempt <= r.maxRetries || lastErr
    ensures StopsForWant(r, Run(r, attempt, exclude, lastErr, lastStatus), attempt, exclude)
    decreases r.maxRetries + 1 - attempt
  {
    hide Attempt, NextAccount, StopsForWant, NoneOffered, Settled, Shunned, GoesOn, OfferedFirst;
    if attempt > r.maxRetries {
      StopsNow(r, attempt, exclude);
    } else {
      var next := NextAccount(r, attempt, exclude);
      NextIsOffered(r, attempt, exclude);
      RunStep(r, attempt, exclude, lastErr, lastStatus);
      if next.None? {
        StopsNow(r, attempt, exclude);
      } else {
        var id := next.value;
        var ended := Attempt(r, attempt, id);
        AttemptShape(r, attempt, id);
        ShunnedIsExcluded(r, attempt, id);
        CountAttempt(r, attempt, id);
        GoesOnIsRetried(r, attempt, id);
        if ended.retry {
          if attempt == r.maxRetries {
            ExhaustedWithError(r, id);
          }
          RunStops(r, attempt + 1, if ended.exclude then exclude + {id} else exclude, lastErr || ended.lastErr,
                   if ended.lastStatus != 0 then ended.lastStatus else lastStatus);
        }
        StopsLater(r, attempt, exclude, id, ended.log, Rest(r, attempt, exclude, lastErr, lastStatus, id));
      }
    }
  }

  /** In a request the accounts are taken as they are offered, attempt by attempt, until a reply settles it, the
      attempts are used up or no account is offered any more. */
  lemma AccountsAsOffered(r: Request)
    ensures TakesOffered(r, Serve(r), 0, r.planned)
    ensures StopsForWant(r, Serve(r), 0, r.planned)
  {
    RunTakesOffered(r, 0, r.planned, false, 0);
    RunStops(r, 0, r.planned, false, 0);
  }
}
