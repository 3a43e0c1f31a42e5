/**
The insights report: its result pages followed cursor by cursor, and the loop that polls an asynchronous report job.
*/
module Insights {
  import opened Wrappers
  import opened RateLimit
  import opened Pages

  /** fetchInsightsSync and fetchJobResults: `server` answers for each value of the `after` parameter, None when it is
      not set; a page's cursor always leads on. */
  method FetchInsightPages<T>(
      server: Server<Option<string>, T>, ghost k: nat) returns (res: Result<seq<T>, string>, requests: nat)
    requires Ends(server, cursor => Some(Some(cursor)), None, k)
    ensures var chain := Chain(server, cursor => Some(Some(cursor)), None, k);
      IsChain(server, cursor => Some(Some(cursor)), None, chain) && requests == |chain| &&
      if res.Ok? then HoldsPages(res.value, chain) else chain[|chain| - 1] == Failed(res.error)
  {
    res, requests := FetchPages(server, cursor => Some(Some(cursor)), None, k);
  }

  // ----- Polling -----

  const FIRST_BACKOFF := 10 * SECOND
  const MAX_BACKOFF := 60 * SECOND
  const DEADLINE := 15 * MINUTE
  const MAX_POLLS := 18

  /** Exact in floating point for every value the loop meets. */
  function NextBackoff(b: int): int {
    var grown := b * 3 / 2;
    if grown > MAX_BACKOFF then MAX_BACKOFF else grown
  }

  /** The wait before poll number i, counted from zero. */
  function Backoff(i: nat): int {
    if i == 0 then FIRST_BACKOFF else NextBackoff(Backoff(i - 1))
  }

  /** The waits before the first n polls, added up. */
  function Waited(n: nat): int {
    if n == 0 then 0 else Waited(n - 1) + Backoff(n - 1)
  }

  lemma FirstBackoffs()
    ensures Backoff(1) == 15 * SECOND && Backoff(2) == 22_500_000_000 && Backoff(3) == 33_750_000_000
    ensures Backoff(4) == 50_625_000_000 && Backoff(5) == MAX_BACKOFF
    ensures Waited(6) == 191_875_000_000
  {
    assert Backoff(1) == NextBackoff(Backoff(0));
    assert Backoff(2) == NextBackoff(Backoff(1));
    assert Backoff(3) == NextBackoff(Backoff(2));
    assert Backoff(4) == NextBackoff(Backoff(3));
    assert Backoff(5) == NextBackoff(Backoff(4));
    assert Waited(1) == Backoff(0);
    assert Waited(2) == Waited(1) + Backoff(1);
    assert Waited(3) == Waited(2) + Backoff(2);
    assert Waited(4) == Waited(3) + Backoff(3);
    assert Waited(5) == Waited(4) + Backoff(4);
    assert Waited(6) == Waited(5) + Backoff(5);
  }

  /** From ten seconds to a minute, never shrinking. */
  lemma {:induction false} BackoffBounds(i: nat)
    ensures 10_000_000_000 <= Backoff(i) <= Backoff(i + 1) <= 60_000_000_000
    ensures Backoff(0) == 10_000_000_000
    ensures Backoff(i + 1) == 60_000_000_000 || Backoff(i + 1) == Backoff(i) * 3 / 2
    ensures Backoff(i) * 3 / 2 <= 60_000_000_000 ==> Backoff(i + 1) == Backoff(i) * 3 / 2
  {
    if i > 0 {
      BackoffBounds(i - 1);
    } else {
      FirstBackoffs();
    }
  }

  lemma {:induction false} WaitedAfterSix(n: nat)
    requires n >= 6
    ensures Backoff(n - 1) == MAX_BACKOFF && Waited(n) == 191_875_000_000 + (n - 6) * MAX_BACKOFF
  {
    if n == 6 {
      FirstBackoffs();
    } else {
      WaitedAfterSix(n - 1);
    }
  }

  lemma {:induction false} WaitedGrows(m: nat, n: nat)
    requires m <= n
    ensures Waited(m) <= Waited(n)
  {
    if m == n {
    } else {
      WaitedGrows(m, n - 1);
      BackoffBounds(n - 1);
    }
  }

  /** The deadline admits an eighteenth poll and no nineteenth. */
  lemma EighteenPollsFit(n: nat)
    ensures Waited(n) < 900_000_000_000 <==> n < 18
  {
    WaitedAfterSix(17);
    WaitedAfterSix(18);
    if n < MAX_POLLS {
      WaitedGrows(n, 17);
    } else {
      WaitedGrows(18, n);
    }
  }

  datatype Status = Completed | FailedOrSkipped | Running | PollError

  datatype PollResult = Fetch | JobEnded | TimedOut | Error

  /** The time of the i-th check of the deadline, when `late(i)` is how much longer than its wait the clock ran on. */
  function Elapsed(late: nat -> nat, i: nat): int {
    late(i) + (if i == 0 then 0 else Elapsed(late, i - 1) + Backoff(i - 1))
  }

  /** That check comes within a quarter of an hour. */
  predicate ChecksInTime(late: nat -> nat, i: nat) {
    Elapsed(late, i) < 900_000_000_000
  }

  predicate AllInTime(late: nat -> nat, n: nat) {
    forall i :: 0 <= i < n ==> ChecksInTime(late, i)
  }

  predicate AllRunning(statuses: nat -> Status, n: nat) {
    forall i :: 0 <= i < n ==> statuses(i).Running?
  }

  lemma {:induction false} NotEarly(late: nat -> nat, n: nat)
    ensures Waited(n) <= Elapsed(late, n)
  {
    if n == 0 {
    } else {
      NotEarly(late, n - 1);
    }
  }

  lemma StillPolling(late: nat -> nat, n: nat)
    requires Elapsed(late, n) < DEADLINE
    ensures n < MAX_POLLS
  {
    NotEarly(late, n);
    EighteenPollsFit(n);
  }

  lemma OneMoreWait(late: nat -> nat, n: nat, now: int, backoff: int)
    requires now == Elapsed(late, n) && backoff == Backoff(n) && now < DEADLINE
    ensures n < MAX_POLLS && ChecksInTime(late, n) && now + backoff + late(n + 1) == Elapsed(late, n + 1)
  {
    StillPolling(late, n);
  }

  /** The clock after the wait before poll n. */
  method AwaitPoll(late: nat -> nat, n: nat, now: int, backoff: int) returns (later: int)
    requires now == Elapsed(late, n) && backoff == Backoff(n) && now < DEADLINE && AllInTime(late, n)
    ensures later == Elapsed(late, n + 1) && n < MAX_POLLS && AllInTime(late, n + 1)
  {
    later := now + backoff + late(n + 1);
    OneMoreWait(late, n, now, backoff);
  }

  method GrowBackoff(ghost n: nat, backoff: int) returns (grown: int)
    requires backoff == Backoff(n)
    ensures grown == Backoff(n + 1)
  {
    grown := backoff * 3 / 2;
    if grown > MAX_BACKOFF {
      grown := MAX_BACKOFF;
    }
  }

  /** The loop of pollAndFetchAsyncJob, timed from the moment the deadline is set; `statuses(i)` is what the i-th poll
      answers. It ends after at most eighteen polls, whatever the clock and the answers. */
  method PollJob(late: nat -> nat, statuses: nat -> Status) returns (res: PollResult, polls: nat)
    ensures polls <= 18
    ensures AllInTime(late, polls)
    ensures polls > 0 ==> AllRunning(statuses, polls - 1)
    ensures res.TimedOut? <==> polls == 0 || statuses(polls - 1).Running?
    ensures res.TimedOut? ==> !ChecksInTime(late, polls)
    ensures res.Fetch? <==> polls > 0 && statuses(polls - 1).Completed?
    ensures res.JobEnded? <==> polls > 0 && statuses(polls - 1).FailedOrSkipped?
  {
    var now: int := late(0);
    var backoff := FIRST_BACKOFF;
    polls := 0;
    while now < DEADLINE
      invariant backoff == Backoff(polls) && polls <= MAX_POLLS
      invariant now == Elapsed(late, polls)
      invariant AllInTime(late, polls)
      invariant AllRunning(statuses, polls)
      decreases MAX_POLLS - polls
    {
      now := AwaitPoll(late, polls, now, backoff);
      var status := statuses(polls);
      polls := polls + 1;
      if !status.Running? {
        return if status.Completed? then Fetch else if status.FailedOrSkipped? then JobEnded else Error, polls;
      }
      backoff := GrowBackoff(polls - 1, backoff);
    }
    res := TimedOut;
  }

  lemma {:induction false} NeverLate(late: nat -> nat, i: nat)
    requires forall k :: late(k) == 0
    ensures Elapsed(late, i) == Waited(i)
  {
    if i == 0 {
    } else {
      NeverLate(late, i - 1);
    }
  }

  /** The bound is met: under a clock that is never late, the eighteenth check still comes before the deadline. */
  lemma BoundIsTight(late: nat -> nat, i: nat)
    requires forall k :: late(k) == 0
    ensures Elapsed(late, i) < 900_000_000_000 <==> i < 18
  {
    NeverLate(late, i);
    EighteenPollsFit(i);
  }
}
