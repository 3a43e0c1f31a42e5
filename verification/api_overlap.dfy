/**
Calls for one token that overlap: what every send still keeps, which sends are safe, and that without the exclusion the
waits are not.
*/
module ApiOverlap {
  import opened Wrappers
  import opened RateLimit
  import opened ApiClient

  // ----- What every send keeps -----

  /** When caller c last entered before event i. */
  function LatestEnter(events: seq<Event>, c: nat, i: nat): (k: Option<nat>)
    requires i <= |events|
    ensures k.Some? ==> k.value < i && events[k.value].Enter? && events[k.value].c == c
    ensures forall m :: (if k.Some? then k.value < m < i else 0 <= m < i) ==> !(events[m].Enter? && events[m].c == c)
  {
    if i == 0 then None
    else if events[i - 1].Enter? && events[i - 1].c == c then Some(i - 1)
    else LatestEnter(events, c, i - 1)
  }

  lemma {:induction false} WaitingSinceEntry(run: seq<Sys>, events: seq<Event>, c: nat, i: nat)
    requires IsTimedRun(run, events) && i < |run| && c < |run[i].callers| && run[i].callers[c].Waiting?
    ensures var k, token := LatestEnter(events, c, i), run[i].callers[c].token;
      k.Some? && events[k.value] == Enter(c, token)
      && run[i].callers[c] == Waiting(token, StateOf(run[k.value].states, token), run[k.value].now)
  {
    if i == 0 {
    } else {
      assert run[i - 1 + 1] == After(run[i - 1], events[i - 1]);
      if !(events[i - 1].Enter? && events[i - 1].c == c) {
        assert run[i - 1].callers[c] == run[i].callers[c];
        WaitingSinceEntry(run, events, c, i - 1);
      }
    }
  }

  /** Every send, however calls overlap, keeps the bound its caller read at its latest entry: not before the end of the
      block it saw there, and half a minute later when the usage it saw was high. */
  lemma SendsKeepEntryBound(run: seq<Sys>, events: seq<Event>, i: nat)
    requires IsTimedRun(run, events) && i < |events| && events[i].Send?
    ensures Can(run[i], events[i])
    ensures var token, k := run[i].callers[events[i].c].token, LatestEnter(events, events[i].c, i);
      && k.Some? && events[k.value] == Enter(events[i].c, token)
      && NotTooEarly(StateOf(run[k.value].states, token), run[k.value].now, run[i].now)
      && (token in run[k.value].states ==> NotTooEarly(run[k.value].states[token], run[k.value].now, run[i].now))
  {
    var caller := run[i].callers[events[i].c];
    WaitingSinceEntry(run, events, events[i].c, i);
    EarliestIsEarliest(caller.seen, caller.at, run[i].now);
  }

  /** This event sets the token's state. */
  ghost predicate Writes(s: Sys, e: Event, token: string)
    requires Can(s, e)
  {
    (e.Update? || e.Block?) && s.callers[e.c].token == token
  }

  ghost predicate Undisturbed(run: seq<Sys>, events: seq<Event>, token: string, k: nat, i: nat)
    requires IsTimedRun(run, events) && i < |run|
  {
    forall m :: k < m < i ==> !Writes(run[m], events[m], token)
  }

  lemma {:induction false} StateStays(run: seq<Sys>, events: seq<Event>, token: string, k: nat, i: nat)
    requires IsTimedRun(run, events) && k < i < |run| && events[k].Enter? && Undisturbed(run, events, token, k, i)
    ensures StateOf(run[i].states, token) == StateOf(run[k].states, token)
  {
    assert run[i - 1 + 1] == After(run[i - 1], events[i - 1]);
    if i == k + 1 {
    } else {
      StateStays(run, events, token, k, i - 1);
    }
  }

  /** The sends of an overlapping run that are safe: when nobody set the token's state since the caller entered, its
      request is not sent before BlockedUntil as it now stands; nor before the wait last prescribed is over, if the
      limiter still holds that wait. */
  lemma UndisturbedSendIsSafe(run: seq<Sys>, events: seq<Event>, i: nat)
    requires IsTimedRun(run, events) && i < |events| && events[i].Send? && Can(run[i], events[i])
    requires LatestEnter(events, events[i].c, i).Some?
    requires var token := run[i].callers[events[i].c].token;
      Undisturbed(run, events, token, LatestEnter(events, events[i].c, i).value, i)
    ensures var token := run[i].callers[events[i].c].token;
      && StateOf(run[i].states, token).blockedUntil <= run[i].now
      && (WaitHeld(run[i], token) ==> Respects(run[i].log, SendEntry(token, run[i].now)))
  {
    SendsKeepEntryBound(run, events, i);
    StateStays(run, events, run[i].callers[events[i].c].token, LatestEnter(events, events[i].c, i).value, i);
  }

  const NO_HEADERS := Headers(None, None, None)
  const TOO_MANY := Response(NO_HEADERS, 429, "", None)
  const FINE := Response(NO_HEADERS, 200, "", None)

  lemma NoHeadersNoQuota(now: int)
    ensures Describes(NO_HEADERS, now, NO_QUOTA)
  {
  }

  lemma OneMore(run: seq<Sys>, events: seq<Event>, e: Event, s: Sys) returns (run': seq<Sys>, events': seq<Event>)
    requires IsTimedRun(run, events) && Can(run[|run| - 1], e) && s == After(run[|run| - 1], e)
    ensures IsTimedRun(run', events') && run' == run + [s] && events' == events + [e]
  {
    run', events' := run + [s], events + [e];
    forall i | 0 <= i < |events'| ensures Can(run'[i], events'[i]) && run'[i + 1] == After(run'[i], events'[i]) {
      if i == |events| {
      } else {
        assert Can(run[i], events[i]) && run[i + 1] == After(run[i], events[i]);
      }
    }
  }

  lemma ExtendTwice<T>(x: seq<T>, y: seq<T>, z: seq<T>)
    requires x <= y && y <= z
    ensures x <= z
  {
  }

  /** A later part of the same run. */
  ghost predicate Extends(run: seq<Sys>, events: seq<Event>, run': seq<Sys>, events': seq<Event>) {
    IsTimedRun(run', events') && run <= run' && events <= events'
  }

  /** One more event, which changes only what it says of the last state. */
  lemma Then(run: seq<Sys>, events: seq<Event>, e: Event) returns (run': seq<Sys>, events': seq<Event>)
    requires IsTimedRun(run, events) && Can(run[|run| - 1], e)
    ensures Extends(run, events, run', events') && run'[|run'| - 1] == After(run[|run| - 1], e)
  {
    run', events' := OneMore(run, events, e, After(run[|run| - 1], e));
  }

  /** A busy caller can be brought to wait for its turn at the same token, whatever it is at; other callers stay put. */
  lemma BringToWait(run: seq<Sys>, events: seq<Event>, c: nat, token: string)
    returns (run': seq<Sys>, events': seq<Event>)
    requires IsTimedRun(run, events)
    requires c < |run[|run| - 1].callers| && Busy(run[|run| - 1].callers[c], token)
    ensures Extends(run, events, run', events') && Waits(run[|run| - 1], run'[|run'| - 1], c, token)
  {
    run', events' := run, events;
    var caller := run[|run| - 1].callers[c];
    if caller.Waiting? {
    } else {
      run', events' := Then(run, events, if caller.Sent? then Fail(c) else Block(c));
      var run0, events0 := run', events';
      run', events' := Then(run', events', Enter(c, token));
      ExtendTwice(run, run0, run');
      ExtendTwice(events, events0, events');
    }
  }

  predicate Waits(s: Sys, s': Sys, c: nat, token: string) {
    && |s'.callers| == |s.callers| && c < |s.callers| && s'.callers[c].Waiting? && s'.callers[c].token == token
    && forall i :: 0 <= i < |s.callers| && i != c ==> s'.callers[i] == s.callers[i]
  }

  /** A waiting caller sends as soon as it may. */
  lemma LetSend(run: seq<Sys>, events: seq<Event>, c: nat) returns (run': seq<Sys>, events': seq<Event>)
    requires IsTimedRun(run, events)
    requires c < |run[|run| - 1].callers| && run[|run| - 1].callers[c].Waiting?
    ensures Extends(run, events, run', events')
    ensures var s, s' := run[|run| - 1], run'[|run'| - 1];
      && s'.callers == s.callers[c := Sent(s.callers[c].token)]
      && s'.log == s.log + [SendEntry(s.callers[c].token, s'.now)]
  {
    var s := run[|run| - 1];
    run', events' := LetPass(run, events, c);
    var run0, events0 := run', events';
    run', events' := Then(run', events', Send(c));
    ExtendTwice(run, run0, run');
    ExtendTwice(events, events0, events');
  }

  lemma LetPass(run: seq<Sys>, events: seq<Event>, c: nat) returns (run': seq<Sys>, events': seq<Event>)
    requires IsTimedRun(run, events)
    requires c < |run[|run| - 1].callers| && run[|run| - 1].callers[c].Waiting?
    ensures Extends(run, events, run', events')
    ensures var s, s' := run[|run| - 1], run'[|run'| - 1];
      s' == s.(now := s'.now) && EarliestSend(s.callers[c].seen, s.callers[c].at) <= s'.now
  {
    var s := run[|run| - 1];
    var due := EarliestSend(s.callers[c].seen, s.callers[c].at);
    run', events' := Then(run, events, Tick(if due > s.now then due - s.now else 0));
  }

  /** One caller has sent and another may send: the first is told to wait a minute, and the second sends at once. */
  lemma AnswerThenSend(run: seq<Sys>, events: seq<Event>, a: nat, b: nat, token: string)
    returns (run': seq<Sys>, events': seq<Event>)
    requires IsTimedRun(run, events)
    requires var s := run[|run| - 1];
      && a < |s.callers| && b < |s.callers| && a != b
      && s.callers[a] == Sent(token) && s.callers[b].Waiting? && s.callers[b].token == token
      && EarliestSend(s.callers[b].seen, s.callers[b].at) <= s.now
    ensures Extends(run, events, run', events') && !SendsRespectWaits(run'[|run'| - 1].log, token)
  {
    var s := run[|run| - 1];
    assert PrescribedWait(TOO_MANY) == Some(60 * SECOND);
    NoHeadersNoQuota(s.now);
    var r1, e1 := Then(run, events, Update(a, TOO_MANY, NO_QUOTA));
    var r2, e2 := Then(r1, e1, Block(a));
    run', events' := Then(r2, e2, Send(b));
    ExtendTwice(run, r1, r2);
    ExtendTwice(run, r2, run');
    ExtendTwice(events, e1, e2);
    ExtendTwice(events, e2, events');
    var quiet, send := BlockEntry(token, s.now, 60 * SECOND), SendEntry(token, s.now);
    assert r2[|r2| - 1].log == s.log + [quiet];
    SendInsideWait(s.log, quiet, send);
  }

  lemma SendInsideWait(log: seq<Entry>, quiet: Entry, send: Entry)
    requires quiet.BlockEntry? && send.SendEntry? && quiet.token == send.token && send.time < quiet.time + quiet.wait
    ensures !SendsRespectWaits(log + [quiet] + [send], send.token)
  {
    var all := log + [quiet] + [send];
    LastEntryAppend(log, quiet, send.token);
    assert all[..|log| + 1] == log + [quiet] && all[|log| + 1] == send;
    assert !Respects(all[..|log| + 1], send);
  }

  /** The exclusion cannot be spared: from every state in which two callers are busy with one token, however the run got
      there and whatever they are at, it can go on to a send inside the wait last prescribed. */
  lemma OverlapBreaksWaits(run: seq<Sys>, events: seq<Event>, token: string)
    returns (run': seq<Sys>, events': seq<Event>)
    requires IsTimedRun(run, events) && !Exclusive(run[|run| - 1], token)
    ensures Extends(run, events, run', events') && !SendsRespectWaits(run'[|run'| - 1].log, token)
  {
    var callers := run[|run| - 1].callers;
    var a, b :| 0 <= a < b < |callers| && Busy(callers[a], token) && Busy(callers[b], token);
    var r1, e1 := BringToWait(run, events, b, token);
    var r2, e2 := BringToWait(r1, e1, a, token);
    var r3, e3 := LetSend(r2, e2, a);
    var r4, e4 := LetPass(r3, e3, b);
    run', events' := AnswerThenSend(r4, e4, a, b, token);
    ExtendTwice(run, r1, r2);
    ExtendTwice(run, r2, r3);
    ExtendTwice(run, r3, r4);
    ExtendTwice(run, r4, run');
    ExtendTwice(events, e1, e2);
    ExtendTwice(events, e2, e3);
    ExtendTwice(events, e3, e4);
    ExtendTwice(events, e4, events');
  }

  // ----- How many callers a token can have -----

  /** In every run of n callers no request for the token goes out before the wait last prescribed for it is over. */
  ghost predicate AlwaysRespects(n: nat, token: string) {
    forall run: seq<Sys>, events: seq<Event> :: IsTimedRun(run, events) && |run[0].callers| == n ==>
      SendsRespectWaits(run[|run| - 1].log, token)
  }

  lemma {:induction false} CallersStay(run: seq<Sys>, events: seq<Event>, i: nat)
    requires IsTimedRun(run, events) && i < |run|
    ensures |run[i].callers| == |run[0].callers|
  {
    if i == 0 {
    } else {
      CallersStay(run, events, i - 1);
      assert run[i - 1 + 1] == After(run[i - 1], events[i - 1]);
    }
  }

  lemma OneCallerRespects(run: seq<Sys>, events: seq<Event>, token: string)
    requires IsTimedRun(run, events) && |run[0].callers| <= 1
    ensures SendsRespectWaits(run[|run| - 1].log, token)
  {
    forall k | 0 <= k < |run| ensures Exclusive(run[k], token) {
      CallersStay(run, events, k);
    }
    RunRemembers(run, events, token, |run| - 1);
  }

  lemma TwoCallersNeedNot(n: nat, token: string) returns (run: seq<Sys>, events: seq<Event>)
    requires n >= 2
    ensures IsTimedRun(run, events) && |run[0].callers| == n && !SendsRespectWaits(run[|run| - 1].log, token)
  {
    var start := Sys(0, map[], seq(n, _ => Idle), []);
    run, events := [start], [];
    run, events := OneMore(run, events, Enter(0, token), After(start, Enter(0, token)));
    run, events := OneMore(run, events, Enter(1, token), After(run[1], Enter(1, token)));
    var run0 := run;
    assert Busy(run[2].callers[0], token) && Busy(run[2].callers[1], token);
    run, events := OverlapBreaksWaits(run, events, token);
    assert run[0] == run0[0];
  }

  /** Waits are always respected exactly when the client has at most one caller. */
  lemma RespectsExactly(n: nat, token: string)
    ensures AlwaysRespects(n, token) <==> n <= 1
  {
    if n <= 1 {
      forall run: seq<Sys>, events: seq<Event> | IsTimedRun(run, events) && |run[0].callers| == n
        ensures SendsRespectWaits(run[|run| - 1].log, token)
      {
        OneCallerRespects(run, events, token);
      }
    } else {
      var run, events := TwoCallersNeedNot(n, token);
    }
  }

  // ----- Concrete runs -----

  const T := "t"
  const MINUTE_LATER := NO_QUOTA.(blockedUntil := 1 + 60 * SECOND)
  const SEND := SendEntry(T, 1)
  const QUIET := BlockEntry(T, 1, 60 * SECOND)

  /** Two callers enter, and one sends. */
  lemma OneSends() returns (run: seq<Sys>, events: seq<Event>)
    ensures IsTimedRun(run, events) && |events| == 3
    ensures run[3] == Sys(1, map[], [Sent(T), Waiting(T, NO_QUOTA, 1)], [SEND])
  {
    var w := Waiting(T, NO_QUOTA, 1);
    run, events := [Sys(1, map[], [Idle, Idle], [])], [];
    run, events := OneMore(run, events, Enter(0, T), Sys(1, map[], [w, Idle], []));
    run, events := OneMore(run, events, Enter(1, T), Sys(1, map[], [w, w], []));
    run, events := OneMore(run, events, Send(0), Sys(1, map[], [Sent(T), w], [SEND]));
  }

  /** The first caller is told to wait a minute, whatever the second is at. */
  lemma OneIsBlocked(run0: seq<Sys>, events0: seq<Event>, other: Caller, log: seq<Entry>)
    returns (run: seq<Sys>, events: seq<Event>)
    requires IsTimedRun(run0, events0) && run0[|events0|] == Sys(1, map[], [Sent(T), other], log)
    ensures IsTimedRun(run, events) && |events| == |events0| + 2
    ensures run[|events|] == Sys(1, map[T := MINUTE_LATER], [Idle, other], log + [QUIET])
  {
    assert PrescribedWait(TOO_MANY) == Some(60 * SECOND);
    NoHeadersNoQuota(1);
    var told := Sys(1, map[T := NO_QUOTA], [Updated(T, 60 * SECOND), other], log);
    run, events := OneMore(run0, events0, Update(0, TOO_MANY, NO_QUOTA), told);
    run, events := OneMore(run, events, Block(0), Sys(1, map[T := MINUTE_LATER], [Idle, other], log + [QUIET]));
  }

  /** Overlap does break it: two callers enter, one is told to wait a minute, the other sends at once. */
  lemma OverlapSendsEarly() returns (run: seq<Sys>, events: seq<Event>)
    ensures IsTimedRun(run, events) && |events| == 6 && events[5] == Send(1)
    ensures run[5].callers[1] == Waiting(T, NO_QUOTA, 1) && run[5].now < StateOf(run[5].states, T).blockedUntil
    ensures !SendsRespectWaits(run[6].log, T)
  {
    run, events := OneSends();
    run, events := OneIsBlocked(run, events, Waiting(T, NO_QUOTA, 1), [SEND]);
    var log := [SEND] + [QUIET] + [SEND];
    run, events := OneMore(run, events, Send(1), run[5].(callers := [Idle, Sent(T)], log := log));
    assert log[..2] == [SEND] + [QUIET] && log[2] == SEND;
    assert !Respects(log[..2], log[2]);
  }

  /** An answer that arrives after another caller was told to wait clears the block, and a caller that enters then sends
      at once, although nobody disturbs it. */
  lemma LateAnswerErasesWait() returns (run: seq<Sys>, events: seq<Event>)
    ensures IsTimedRun(run, events) && |events| == 9 && events[8] == Send(0) && LatestEnter(events, 0, 8) == Some(7)
    ensures run[8].callers[0] == Waiting(T, NO_QUOTA, 1) && !WaitHeld(run[8], T)
    ensures !SendsRespectWaits(run[9].log, T)
  {
    run, events := OneSends();
    run, events := OneMore(run, events, Send(1), Sys(1, map[], [Sent(T), Sent(T)], [SEND, SEND]));
    run, events := OneIsBlocked(run, events, Sent(T), [SEND, SEND]);
    assert PrescribedWait(FINE) == None;
    NoHeadersNoQuota(1);
    var before := [SEND, SEND] + [QUIET];
    run, events := OneMore(run, events, Update(1, FINE, NO_QUOTA), Sys(1, map[T := NO_QUOTA], [Idle, Idle], before));
    run, events := OneMore(run, events, Enter(0, T), run[7].(callers := [Waiting(T, NO_QUOTA, 1), Idle]));
    run, events := OneMore(run, events, Send(0), run[8].(callers := [Sent(T), Idle], log := before + [SEND]));
    assert (before + [SEND])[..3] == before;
    assert !Respects(before, SEND);
  }
}
