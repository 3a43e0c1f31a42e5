/**
Client.get: wait out a block, send, update the quota state, block again when told to. First any number of callers in
time, as a transition system with a log, then one call as the client makes it, which is such a sequence of events.
*/
module ApiClient {
  import opened Wrappers
  import opened Decimal
  import opened RateLimit

  const PAUSE_THRESHOLD := 75.0

  // ----- What a response prescribes -----

  predicate IsRateLimit(code: int) {
    code == 4 || code == 17 || code == 32 || code == 80000 || code == 80004
  }

  function RetryAfter(code: int): int {
    match code
    case 4 => 10 * MINUTE
    case 17 => 5 * MINUTE
    case 32 => 5 * MINUTE
    case 80000 => 2 * MINUTE
    case 80004 => 2 * MINUTE
    case 18 => 1 * MINUTE
    case _ => 30 * SECOND
  }

  /** `retryAfter` is the text of the Retry-After header, empty when there is none, and `error` the code of an error
      envelope. */
  datatype Response =
    | TransportError
    | Response(headers: Headers, status: int, retryAfter: string, error: Option<int>)

  /** How long a 429 asks for: its header's seconds, or a minute when the header is missing or no 64-bit integer. */
  function RetryWait(retryAfter: string): int {
    var secs := ParseInt64(retryAfter);
    if secs.Some? then Wrap64(secs.value * SECOND) else 60 * SECOND
  }

  /** How long the response tells the client to leave the token alone, if it does. */
  function PrescribedWait(r: Response): Option<int> {
    if r.TransportError? then None
    else if r.status == 429 then Some(RetryWait(r.retryAfter))
    else if r.error.Some? && IsRateLimit(r.error.value) then Some(RetryAfter(r.error.value))
    else None
  }

  /** A header that announces any number of seconds is honoured exactly when that many nanoseconds fit 64 bits. */
  lemma RetryAfterIsHonoured(r: Response, secs: int)
    requires r.Response? && r.status == 429 && r.retryAfter == Print(secs)
    ensures PrescribedWait(r) == Some(secs * 1_000_000_000) <==> -9223372036 <= secs <= 9223372036
    ensures !(MIN_INT64 <= secs <= MAX_INT64) ==> PrescribedWait(r) == Some(60_000_000_000)
  {
    ParseOfPrint(secs);
    assert MIN_INT64 <= secs * SECOND <= MAX_INT64 <==> -9223372036 <= secs <= 9223372036;
  }

  /** A 429 with no header, or one that is no 64-bit integer, asks for a minute. */
  lemma RetryAfterFallsBack(r: Response)
    requires r.Response? && r.status == 429
    requires r.retryAfter == "" || !Numeral(r.retryAfter)
    ensures PrescribedWait(r) == Some(60_000_000_000)
  {
    ParsesNumerals(r.retryAfter);
  }

  /** Without a 429 a token is blocked exactly for the five rate-limit codes: the app-level one holds it up for ten
      minutes, the token-level ones for five, the ad account's for two. */
  lemma BlockingCodes(r: Response)
    requires r.Response? && r.status != 429
    ensures PrescribedWait(r).Some? <==> r.error.Some? && r.error.value in {4, 17, 32, 80000, 80004}
    ensures PrescribedWait(r).Some? ==>
      PrescribedWait(r).value == if r.error.value == 4 then 600_000_000_000
        else if r.error.value in {17, 32} then 300_000_000_000 else 120_000_000_000
  {
  }

  /** When a caller who saw this state at this time may send. */
  function EarliestSend(seen: QuotaState, at: int): int {
    (if IsBlocked(seen, at) then seen.blockedUntil else at)
    + (if UsagePct(seen) > PAUSE_THRESHOLD then 30 * SECOND else 0)
  }

  lemma EarliestSendIsAfterBlock(seen: QuotaState, at: int)
    ensures seen.blockedUntil <= EarliestSend(seen, at) && at <= EarliestSend(seen, at)
  {
  }

  /** This is no earlier than a caller may send who read q at a time: the block it read is over, and half a minute has
      passed since when one of the three percentages was above 75. */
  predicate NotTooEarly(q: QuotaState, read: int, time: int) {
    var pause := if q.appUsagePct > 75.0 || q.bdcUsagePct > 75.0 || q.insightsPct > 75.0 then 30_000_000_000 else 0;
    read + pause <= time && q.blockedUntil + pause <= time
  }

  lemma EarliestIsEarliest(q: QuotaState, read: int, time: int)
    ensures NotTooEarly(q, read, time) <==> EarliestSend(q, read) <= time
  {
  }

  // ----- Many calls in time -----

  datatype Caller =
    | Idle
    | Waiting(token: string, seen: QuotaState, at: int)
    | Sent(token: string)
    | Updated(token: string, wait: int)

  /** What happened to a token: a request went out, or it was told to stay quiet for `wait` from `time` on. */
  datatype Entry = SendEntry(token: string, time: int) | BlockEntry(token: string, time: int, wait: int)

  datatype Sys = Sys(now: int, states: map<string, QuotaState>, callers: seq<Caller>, log: seq<Entry>)

  datatype Event =
    | Tick(d: nat)
    | Enter(c: nat, token: string)
    | Send(c: nat)
    | Fail(c: nat)
    | Update(c: nat, r: Response, q: QuotaState)
    | Block(c: nat)

  ghost predicate Can(s: Sys, e: Event) {
    match e
    case Tick(_) => true
    case Enter(c, _) => c < |s.callers| && s.callers[c].Idle?
    case Send(c) => c < |s.callers| && s.callers[c].Waiting?
      && EarliestSend(s.callers[c].seen, s.callers[c].at) <= s.now
    case Fail(c) => c < |s.callers| && s.callers[c].Sent?
    case Update(c, r, q) => c < |s.callers| && s.callers[c].Sent? && r.Response? && Describes(r.headers, s.now, q)
    case Block(c) => c < |s.callers| && s.callers[c].Updated?
  }

  ghost function After(s: Sys, e: Event): Sys
    requires Can(s, e)
  {
    match e
    case Tick(d) => s.(now := s.now + d)
    case Enter(c, token) => s.(callers := s.callers[c := Waiting(token, StateOf(s.states, token), s.now)])
    case Send(c) =>
      var token := s.callers[c].token;
      s.(callers := s.callers[c := Sent(token)], log := s.log + [SendEntry(token, s.now)])
    case Fail(c) => s.(callers := s.callers[c := Idle])
    case Update(c, r, q) =>
      var token := s.callers[c].token;
      s.(states := s.states[token := q],
         callers := s.callers[c := if PrescribedWait(r).Some? then Updated(token, PrescribedWait(r).value) else Idle],
         log := s.log + (if q.estBlockMinutes > 0 then [BlockEntry(token, s.now, Wrap64(q.estBlockMinutes * MINUTE))]
           else []))
    case Block(c) =>
      var token, wait := s.callers[c].token, s.callers[c].wait;
      s.(states := Blocked(s.states, token, s.now + wait),
         callers := s.callers[c := Idle],
         log := s.log + [BlockEntry(token, s.now, wait)])
  }

  predicate Busy(caller: Caller, token: string) {
    !caller.Idle? && caller.token == token
  }

  /** Calls for this token do not overlap. */
  predicate Exclusive(s: Sys, token: string) {
    forall i, j :: 0 <= i < j < |s.callers| ==> !(Busy(s.callers[i], token) && Busy(s.callers[j], token))
  }

  ghost predicate IsTimedRun(run: seq<Sys>, events: seq<Event>) {
    && |run| == |events| + 1
    && run[0].states == map[] && run[0].log == [] && (forall c :: 0 <= c < |run[0].callers| ==> run[0].callers[c].Idle?)
    && forall i :: 0 <= i < |events| ==> Can(run[i], events[i]) && run[i + 1] == After(run[i], events[i])
  }

  function LastEntry(log: seq<Entry>, token: string): (e: Option<Entry>)
    ensures e.Some? ==> e.value.token == token
  {
    if log == [] then None
    else if log[|log| - 1].token == token then Some(log[|log| - 1])
    else LastEntry(log[..|log| - 1], token)
  }

  predicate Respects(before: seq<Entry>, send: Entry) {
    var last := LastEntry(before, send.token);
    last.Some? && last.value.BlockEntry? ==> last.value.time + last.value.wait <= send.time
  }

  /** No request for the token goes out before the wait that was last prescribed for it is over. */
  ghost predicate SendsRespectWaits(log: seq<Entry>, token: string) {
    forall k :: 0 <= k < |log| && log[k].SendEntry? && log[k].token == token ==> Respects(log[..k], log[k])
  }

  /** The limiter holds the wait last prescribed for the token. */
  ghost predicate WaitHeld(s: Sys, token: string) {
    var last := LastEntry(s.log, token);
    last.Some? && last.value.BlockEntry? ==> StateOf(s.states, token).blockedUntil == last.value.time + last.value.wait
  }

  /** Whoever is about to send for the token has seen what the limiter holds. */
  ghost predicate Remembers(s: Sys, token: string) {
    && WaitHeld(s, token)
    && (forall c :: 0 <= c < |s.callers| && Busy(s.callers[c], token) ==> CallerKnows(s, s.callers[c]))
  }

  ghost predicate CallerKnows(s: Sys, caller: Caller) {
    match caller
    case Waiting(token, seen, _) => seen == StateOf(s.states, token)
    case Sent(token) => LastEntry(s.log, token).Some? && LastEntry(s.log, token).value.SendEntry?
    case _ => true
  }

  lemma LastEntryAppend(log: seq<Entry>, e: Entry, token: string)
    ensures LastEntry(log + [e], token) == if e.token == token then Some(e) else LastEntry(log, token)
  {
    assert (log + [e])[..|log|] == log;
  }

  /** A caller changes at most its own token's state. */
  lemma OtherTokensUntouched(s: Sys, e: Event, other: string)
    requires Can(s, e)
    requires !e.Tick? && !e.Enter? ==> s.callers[e.c].token != other
    ensures StateOf(After(s, e).states, other) == StateOf(s.states, other)
  {
  }

  /** What a step adds to the log, if anything, is about its caller's token. */
  lemma LogGrows(s: Sys, e: Event, token: string)
    requires Can(s, e)
    ensures e.Tick? || e.Enter? || s.callers[e.c].token != token ==>
      LastEntry(After(s, e).log, token) == LastEntry(s.log, token)
    ensures e.Send? && s.callers[e.c].token == token ==>
      LastEntry(After(s, e).log, token) == Some(SendEntry(token, s.now))
    ensures e.Block? && s.callers[e.c].token == token ==>
      LastEntry(After(s, e).log, token) == Some(BlockEntry(token, s.now, s.callers[e.c].wait))
    ensures e.Update? && s.callers[e.c].token == token && e.q.estBlockMinutes > 0 ==>
      LastEntry(After(s, e).log, token) == Some(BlockEntry(token, s.now, Wrap64(e.q.estBlockMinutes * MINUTE)))
    ensures e.Update? && e.q.estBlockMinutes <= 0 ==> After(s, e).log == s.log
    ensures e.Fail? ==> After(s, e).log == s.log
  {
    if |After(s, e).log| > |s.log| {
      LastEntryAppend(s.log, After(s, e).log[|s.log|], token);
    } else {
      assert After(s, e).log == s.log;
    }
  }

  lemma StepHoldsWait(s: Sys, e: Event, token: string)
    requires Can(s, e) && Remembers(s, token)
    ensures WaitHeld(After(s, e), token)
  {
    LogGrows(s, e, token);
    if e.Update? && Busy(s.callers[e.c], token) {
      assert CallerKnows(s, s.callers[e.c]);
    }
  }

  lemma StepInforms(s: Sys, e: Event, token: string, c: nat)
    requires Can(s, e) && Exclusive(s, token) && Remembers(s, token)
    requires c < |s.callers| && Busy(After(s, e).callers[c], token)
    ensures CallerKnows(After(s, e), After(s, e).callers[c])
  {
    LogGrows(s, e, token);
    assert Busy(s.callers[c], token) ==> CallerKnows(s, s.callers[c]);
  }

  lemma StepRemembers(s: Sys, e: Event, token: string)
    requires Can(s, e) && Exclusive(s, token) && Remembers(s, token)
    ensures Remembers(After(s, e), token)
  {
    StepHoldsWait(s, e, token);
    forall c | 0 <= c < |s.callers| && Busy(After(s, e).callers[c], token)
      ensures CallerKnows(After(s, e), After(s, e).callers[c])
    {
      StepInforms(s, e, token, c);
    }
  }

  lemma StepRespects(s: Sys, e: Event, token: string)
    requires Can(s, e) && Remembers(s, token) && SendsRespectWaits(s.log, token)
    ensures SendsRespectWaits(After(s, e).log, token)
  {
    var log, log' := s.log, After(s, e).log;
    forall k | 0 <= k < |log'| && log'[k].SendEntry? && log'[k].token == token ensures Respects(log'[..k], log'[k]) {
      if k < |log| {
        assert log'[..k] == log[..k];
      } else {
        assert log'[..k] == log;
        assert CallerKnows(s, s.callers[e.c]);
        EarliestSendIsAfterBlock(s.callers[e.c].seen, s.callers[e.c].at);
      }
    }
  }

  lemma {:induction false} RunRemembers(run: seq<Sys>, events: seq<Event>, token: string, i: nat)
    requires IsTimedRun(run, events) && i < |run| && forall k :: 0 <= k < i ==> Exclusive(run[k], token)
    ensures Remembers(run[i], token) && SendsRespectWaits(run[i].log, token)
  {
    if i == 0 {
    } else {
      RunRemembers(run, events, token, i - 1);
      assert run[i - 1 + 1] == After(run[i - 1], events[i - 1]);
      StepRemembers(run[i - 1], events[i - 1], token);
      StepRespects(run[i - 1], events[i - 1], token);
    }
  }

  /** As long as calls for one token have been made one at a time, whatever calls for other tokens do, no request for it
      is sent before its BlockedUntil, nor before the wait that a 429, a rate-limit code or the usage header last
      prescribed for it is over. */
  lemma SequentialCallsAreSafe(run: seq<Sys>, events: seq<Event>, token: string, i: nat)
    requires IsTimedRun(run, events) && i < |events| && forall k :: 0 <= k <= i ==> Exclusive(run[k], token)
    ensures SendsRespectWaits(run[i + 1].log, token)
    ensures Can(run[i], events[i])
    ensures events[i].Send? && run[i].callers[events[i].c].token == token ==>
      StateOf(run[i].states, token).blockedUntil <= run[i].now
  {
    RunRemembers(run, events, token, i);
    RunRemembers(run, events, token, i + 1);
    if events[i].Send? {
      var caller := run[i].callers[events[i].c];
      assert caller.token == token ==> CallerKnows(run[i], caller);
      EarliestSendIsAfterBlock(caller.seen, caller.at);
    }
  }

  // ----- One call as the client makes it -----

  datatype GetError = HttpError | ApiError(code: int)

  /** The clock, and how much it runs on between one reading and the next. */
  class Clock {
    var now: int

    constructor (now: int)
      ensures this.now == now
    {
      this.now := now;
    }

    method Pass(d: nat)
      modifies this
      ensures now == old(now) + d
    {
      now := now + d;
    }

    /** A timer fires no earlier than asked; a wait of zero or less does not hold anyone up. */
    method Sleep(wait: int, late: nat)
      modifies this
      ensures now == old(now) + (if wait > 0 then wait else 0) + late
    {
      now := now + (if wait > 0 then wait else 0) + late;
    }
  }

  /** Arbitrary delays between the steps of one call. */
  datatype Delays = Delays(untilTimer: nat, late1: nat, late2: nat, untilSend: nat, roundTrip: nat, untilBlock: nat)

  /** How much the delays can add to the waits before a call sends. */
  function Slack(d: Delays): nat {
    d.untilTimer + d.late1 + d.late2 + d.untilSend
  }

  /** The waits before the request: for the block that was read to end, and half a minute more when usage is high. */
  method AwaitTurn(state: QuotaState, clock: Clock, d: Delays)
    modifies clock
    ensures clock.now >= old(clock.now)
    ensures NotTooEarly(state, old(clock.now), clock.now)
    ensures !NotTooEarly(state, old(clock.now), clock.now - Slack(d) - 1)
    ensures EarliestSend(state, old(clock.now)) <= clock.now
  {
    if IsBlocked(state, clock.now) {
      clock.Pass(d.untilTimer);
      var wait := state.blockedUntil - clock.now;
      clock.Sleep(wait, d.late1);
    }
    if UsagePct(state) > PAUSE_THRESHOLD {
      clock.Sleep(30 * SECOND, d.late2);
    }
    clock.Pass(d.untilSend);
    EarliestIsEarliest(state, old(clock.now), clock.now);
  }

  method WaitOf429(retryAfter: string) returns (wait: int)
    ensures wait == RetryWait(retryAfter)
  {
    wait := 60 * SECOND;
    if retryAfter != "" {
      var secs := ParseInt64(retryAfter);
      if secs.Some? {
        wait := Wrap64(secs.value * SECOND);
      }
    }
  }

  /** These events, one after the other, take s to s'. */
  ghost predicate Steps(s: Sys, events: seq<Event>, s': Sys)
    decreases |events|
  {
    if events == [] then s' == s else Can(s, events[0]) && Steps(After(s, events[0]), events[1..], s')
  }

  lemma {:induction false} OneMoreStep(s: Sys, events: seq<Event>, s': Sys, e: Event)
    requires Steps(s, events, s') && Can(s', e)
    ensures Steps(s, events + [e], After(s', e))
    decreases |events|
  {
    if events == [] {
      assert [e][1..] == [];
    } else {
      assert (events + [e])[1..] == events[1..] + [e];
      OneMoreStep(After(s, events[0]), events[1..], s', e);
    }
  }

  /** The events of one call: it enters, sends when it may, and then fails, or has its answer noted and blocks if
      told. */
  ghost function CallEvents(token: string, start: int, sentAt: int, answeredAt: int, doneAt: int, r: Response,
    q: QuotaState)
      : seq<Event>
    requires start <= sentAt <= answeredAt <= doneAt
  {
    [Enter(0, token), Tick(sentAt - start), Send(0), Tick(answeredAt - sentAt)]
    + (if r.TransportError? then [Fail(0)] else [Update(0, r, q)]) + [Tick(doneAt - answeredAt)]
    + (if PrescribedWait(r).Some? then [Block(0)] else [])
  }

  /** What a call makes of the limiter. */
  function Noted(states: map<string, QuotaState>, token: string, r: Response, q: QuotaState, now: int)
      : map<string, QuotaState>
  {
    if r.TransportError? then states
    else if PrescribedWait(r).None? then states[token := q]
    else Blocked(states[token := q], token, now + PrescribedWait(r).value)
  }

  /** A call up to its answer. */
  lemma CallSends(states: map<string, QuotaState>, token: string, start: int, sentAt: int, answeredAt: int)
    returns (es: seq<Event>)
    requires start <= sentAt <= answeredAt && EarliestSend(StateOf(states, token), start) <= sentAt
    ensures es == [Enter(0, token), Tick(sentAt - start), Send(0), Tick(answeredAt - sentAt)]
    ensures Steps(Sys(start, states, [Idle], []), es,
                  Sys(answeredAt, states, [Sent(token)], [SendEntry(token, sentAt)]))
  {
    var s := Sys(start, states, [Idle], []);
    var waiting := Waiting(token, StateOf(states, token), start);
    es := [];
    es := Step(s, es, s, Enter(0, token), s.(callers := [waiting]));
    es := Step(s, es, s.(callers := [waiting]), Tick(sentAt - start), Sys(sentAt, states, [waiting], []));
    var sent := Sys(sentAt, states, [Sent(token)], [SendEntry(token, sentAt)]);
    es := Step(s, es, Sys(sentAt, states, [waiting], []), Send(0), sent);
    es := Step(s, es, sent, Tick(answeredAt - sentAt), sent.(now := answeredAt));
  }

  lemma CallSteps(
      states: map<string, QuotaState>, token: string, start: int, sentAt: int, answeredAt: int, doneAt: int,
      r: Response, q: QuotaState) returns (end: Sys)
    requires start <= sentAt <= answeredAt <= doneAt && EarliestSend(StateOf(states, token), start) <= sentAt
    requires r.Response? ==> Describes(r.headers, answeredAt, q)
    ensures Steps(Sys(start, states, [Idle], []), CallEvents(token, start, sentAt, answeredAt, doneAt, r, q), end)
    ensures end.now == doneAt && end.states == Noted(states, token, r, q, doneAt) && end.callers == [Idle]
    ensures end.log != [] && end.log[0] == SendEntry(token, sentAt)
  {
    var s := Sys(start, states, [Idle], []);
    var es := CallSends(states, token, start, sentAt, answeredAt);
    var sent := Sys(answeredAt, states, [Sent(token)], [SendEntry(token, sentAt)]);
    var answer := if r.TransportError? then Fail(0) else Update(0, r, q);
    var answered := After(sent, answer);
    es := Step(s, es, sent, answer, answered);
    end := answered.(now := doneAt);
    es := Step(s, es, answered, Tick(doneAt - answeredAt), end);
    if PrescribedWait(r).Some? {
      es := Step(s, es, end, Block(0), After(end, Block(0)));
      end := After(end, Block(0));
    }
    assert es == CallEvents(token, start, sentAt, answeredAt, doneAt, r, q);
  }

  lemma Step(s: Sys, events: seq<Event>, m: Sys, e: Event, m': Sys) returns (events': seq<Event>)
    requires Steps(s, events, m) && Can(m, e) && m' == After(m, e)
    ensures Steps(s, events', m') && events' == events + [e]
  {
    OneMoreStep(s, events, m, e);
    events' := events + [e];
  }

  /** The error a response is reported with, a 429 before whatever its body says. */
  function ErrorFor(r: Response): Result<(), GetError>
    requires r.Response?
  {
    if r.status == 429 then Err(ApiError(429)) else if r.error.Some? then Err(ApiError(r.error.value)) else Ok(())
  }

  /** What the client does with an answer: note its headers, and block the token when told to. */
  method NoteAnswer(limiter: RateLimiter, clock: Clock, token: string, untilBlock: nat, r: Response)
    returns (res: Result<(), GetError>, ghost q: QuotaState)
    requires r.Response?
    modifies limiter, clock
    ensures clock.now == old(clock.now) + untilBlock && Describes(r.headers, old(clock.now), q)
    ensures limiter.states == Noted(old(limiter.states), token, r, q, clock.now) && res == ErrorFor(r)
  {
    limiter.UpdateFromResponse(token, r.headers, clock.now);
    q := limiter.states[token];
    clock.Pass(untilBlock);
    if r.status == 429 {
      var wait := WaitOf429(r.retryAfter);
      limiter.BlockToken(token, wait, clock.now);
      return Err(ApiError(429)), q;
    }
    if r.error.Some? {
      if IsRateLimit(r.error.value) {
        limiter.BlockToken(token, RetryAfter(r.error.value), clock.now);
      }
      return Err(ApiError(r.error.value)), q;
    }
    return Ok(()), q;
  }

  lemma NotedStates(states: map<string, QuotaState>, token: string, r: Response, q: QuotaState, now: int)
    requires r.Response?
    ensures Noted(states, token, r, q, now)
      == states[token := if PrescribedWait(r).None? then q else q.(blockedUntil := now + PrescribedWait(r).value)]
  {
  }

  method Get(limiter: RateLimiter, clock: Clock, token: string, d: Delays, r: Response)
    returns (res: Result<(), GetError>, sentAt: int, ghost answeredAt: int, ghost q: QuotaState, ghost end: Sys)
    modifies limiter, clock
    ensures old(clock.now) <= sentAt <= answeredAt <= clock.now
    ensures token in old(limiter.states) ==>
      && NotTooEarly(old(limiter.states)[token], old(clock.now), sentAt)
      && !NotTooEarly(old(limiter.states)[token], old(clock.now), sentAt - Slack(d) - 1)
    ensures EarliestSend(StateOf(old(limiter.states), token), old(clock.now)) <= sentAt
    ensures r.TransportError? ==> res == Err(HttpError) && limiter.states == old(limiter.states)
    ensures r.Response? ==>
      && Describes(r.headers, answeredAt, q)
      && limiter.states == old(limiter.states)[token :=
          if PrescribedWait(r).None? then q else q.(blockedUntil := clock.now + PrescribedWait(r).value)]
    ensures r.Response? ==>
      res == if r.status == 429 then Err(ApiError(429))
             else if r.error.Some? then Err(ApiError(r.error.value)) else Ok(())
    ensures Steps(Sys(old(clock.now), old(limiter.states), [Idle], []),
                  CallEvents(token, old(clock.now), sentAt, answeredAt, clock.now, r, q), end)
    ensures end.now == clock.now && end.states == limiter.states && end.callers == [Idle]
    ensures end.log != [] && end.log[0] == SendEntry(token, sentAt)
  {
    ghost var start, states := clock.now, limiter.states;
    q := NO_QUOTA;
    var state := limiter.GetState(token);
    AwaitTurn(state, clock, d);
    sentAt := clock.now;
    clock.Pass(d.roundTrip);
    answeredAt := clock.now;
    if r.TransportError? {
      res := Err(HttpError);
    } else {
      res, q := NoteAnswer(limiter, clock, token, d.untilBlock, r);
      NotedStates(states, token, r, q, clock.now);
    }
    end := CallSteps(states, token, start, sentAt, answeredAt, clock.now, r, q);
  }
}
