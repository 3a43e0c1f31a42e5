/**
Overlapping syncs of different dates: exactly which of them are safe, known from what they ask for and before anything
is answered.
*/
module SyncOverlap {
  import opened Filters
  import opened Wrappers
  import opened Store
  import opened Pool
  import opened Histories
  import opened SyncJobs
  import opened SyncSerial

  /** One account to be fetched for one date. */
  datatype Request = Request(account: AdAccount, date: string)

  function JobsOf(requests: seq<Request>, answers: seq<Answer>): (jobs: seq<Job>)
    requires |answers| == |requests|
    ensures |jobs| == |requests|
    ensures forall j :: 0 <= j < |jobs| ==> jobs[j] == Job(requests[j].account, requests[j].date, answers[j])
  {
    seq(|requests|, j requires 0 <= j < |requests| => Job(requests[j].account, requests[j].date, answers[j]))
  }

  predicate SameAccount(x: Request, y: Request) {
    x.account.accountId == y.account.accountId
  }

  /** No account is asked for on two dates. */
  predicate AccountsApart(requests: seq<Request>) {
    forall i, j :: 0 <= i < |requests| && 0 <= j < |requests| && SameAccount(requests[i], requests[j]) ==>
      requests[i].date == requests[j].date
  }

  /** Running the jobs one by one in this order leaves what the history left. */
  ghost predicate Explains(jobs: seq<Job>, h: seq<Event>, t: Tables, order: seq<nat>)
    requires InRange(Programs(jobs), h)
  {
    && Indexes(order, |jobs|) && multiset(order) == multiset(Range(|jobs|))
    && RunOps(Ops(Programs(jobs), h), t) == RunOps(SequentialOps(Programs(jobs), order), t)
  }

  /** From these tables some order explains this history, if it is one. */
  ghost predicate Explained(jobs: seq<Job>, h: seq<Event>, t: Tables) {
    Complete(Programs(jobs), h) && InRange(Programs(jobs), h) ==> exists order :: Explains(jobs, h, t, order)
  }

  /** Whatever is answered, however the jobs interleave and whatever was stored, some order explains it. */
  ghost predicate AlwaysSerializable(requests: seq<Request>) {
    forall answers: seq<Answer>, h: seq<Event>, t: Tables :: |answers| == |requests| ==>
      Explained(JobsOf(requests, answers), h, t)
  }

  // ----- Apart, always serialisable -----

  lemma ApartKeys(requests: seq<Request>, answers: seq<Answer>)
    requires |answers| == |requests| && AccountsApart(requests)
    ensures DatesApart(JobsOf(requests, answers))
  {
    var jobs := JobsOf(requests, answers);
    forall i, j, k | 0 <= i < |jobs| && 0 <= j < |jobs| && SavesKey(jobs[i], k) && SavesKey(jobs[j], k)
      ensures jobs[i].date == jobs[j].date
    {
      ProgramOwnsItsKeys(jobs[i], 0);
      ProgramOwnsItsKeys(jobs[j], 0);
      assert SameAccount(requests[i], requests[j]);
    }
  }

  lemma ApartIsExplained(requests: seq<Request>, answers: seq<Answer>, h: seq<Event>, t: Tables)
    requires |answers| == |requests| && AccountsApart(requests)
    ensures Explained(JobsOf(requests, answers), h, t)
  {
    var jobs := JobsOf(requests, answers);
    ApartKeys(requests, answers);
    if Complete(Programs(jobs), h) && InRange(Programs(jobs), h) {
      var order := Serializable(jobs, h, t);
      assert Explains(jobs, h, t, order);
    }
  }

  // ----- Not apart, not always -----

  /** An answer with one row of the given day. */
  function OneRow(day: string, clicks: int): Answer {
    Answer(Ok([InsightRow(day, "s", "", "", "", 0, clicks, 0.0)]), None, true, true, false)
  }

  const NOTHING := Answer(Err(""), None, false, false, false)

  /** Two of the requests fetch a row of one day with other figures, and the rest fail. */
  function Clash(n: nat, x: nat, y: nat, day: string): (answers: seq<Answer>)
    ensures |answers| == n
  {
    seq(n, j => if j == x then OneRow(day, 1) else if j == y then OneRow(day, 2) else NOTHING)
  }

  function RowKey(a: AdAccount, day: string): Key {
    Key(a.accountId, day, "s")
  }

  function Figures(a: AdAccount, clicks: int): Spend {
    Spend("", "", "", 0, clicks, 0.0, a.currency)
  }

  function Save(a: AdAccount, day: string, clicks: int): Op {
    SaveRows(a.accountId, [SpendRow(RowKey(a, day), Figures(a, clicks))])
  }

  lemma OneRowProgram(a: AdAccount, date: string, day: string, clicks: int)
    ensures Program(Job(a, date, OneRow(day, clicks))) == [Save(a, day, clicks), SetOk(a.accountId, date)]
  {
    assert ToSpendRows(a, OneRow(day, clicks).fetch.value) == [SpendRow(RowKey(a, day), Figures(a, clicks))];
  }

  /** The row shows these figures and the record this date. */
  predicate EndsOn(t: Tables, k: Key, clicks: int, date: string) {
    && k in t.spend && t.spend[k].clicks == clicks
    && k.account in t.state && t.state[k.account].lastOk == date
  }

  lemma AloneEndsOn(a: AdAccount, date: string, day: string, clicks: int, t: Tables)
    ensures EndsOn(RunOps(Program(Job(a, date, OneRow(day, clicks))), t), RowKey(a, day), clicks, date)
  {
    ProgramEffect(Job(a, date, OneRow(day, clicks)), t);
    OneRowProgram(a, date, day, clicks);
    LastRowWins(t.spend, Save(a, day, clicks).rows, RowKey(a, day));
  }

  /** Both save, the second last, and both record their dates, the first last. */
  lemma MixedEndsOn(x: Request, y: Request, day: string, t: Tables)
    requires SameAccount(x, y)
    ensures var a := x.account.accountId;
      EndsOn(RunOps([Save(x.account, day, 1), Save(y.account, day, 2), SetOk(a, y.date), SetOk(a, x.date)], t),
             RowKey(y.account, day), 2, x.date)
  {
    var a, sx, sy := x.account.accountId, Save(x.account, day, 1), Save(y.account, day, 2);
    RunShort(sx, sy, SetOk(a, y.date), t);
    RunOpsAppend([sx, sy, SetOk(a, y.date)], SetOk(a, x.date), t);
    assert [sx, sy, SetOk(a, y.date)] + [SetOk(a, x.date)] == [sx, sy, SetOk(a, y.date), SetOk(a, x.date)];
    LastRowWins(PutAll(t.spend, sx.rows), sy.rows, RowKey(y.account, day));
  }

  /** The first n jobs but two, each with its one action. */
  function Others(n: nat, x: nat, y: nat): seq<Event> {
    if n == 0 then [] else Others(n - 1, x, y) + (if n - 1 == x || n - 1 == y then [] else [Event(n - 1, 0)])
  }

  lemma {:induction false} OthersInRange(n: nat, x: nat, y: nat)
    ensures forall e :: e in Others(n, x, y) ==> e.job < n
  {
    if n == 0 {
    } else {
      OthersInRange(n - 1, x, y);
    }
  }

  lemma {:induction false} OthersOnce(n: nat, x: nat, y: nat, j: nat)
    ensures OfJob(Others(n, x, y), j) == if j < n && j != x && j != y then [Event(j, 0)] else []
  {
    if n == 0 {
    } else {
      var before := Others(n - 1, x, y);
      OthersOnce(n - 1, x, y, j);
      if n - 1 == x || n - 1 == y {
        assert before + [] == before;
      } else {
        FilterAppend(before, Event(n - 1, 0), IsOfJob(j));
      }
    }
  }

  function Mixed(n: nat, x: nat, y: nat): seq<Event> {
    Others(n, x, y) + [Event(x, 0)] + [Event(y, 0)] + [Event(y, 1)] + [Event(x, 1)]
  }

  lemma MixedOfJob(others: seq<Event>, x: nat, y: nat, j: nat)
    requires x != y
    ensures OfJob(others + [Event(x, 0)] + [Event(y, 0)] + [Event(y, 1)] + [Event(x, 1)], j)
      == OfJob(others, j) + if j == x || j == y then [Event(j, 0), Event(j, 1)] else []
  {
    var h1 := others + [Event(x, 0)];
    var h2 := h1 + [Event(y, 0)];
    var h3 := h2 + [Event(y, 1)];
    FilterAppend(others, Event(x, 0), IsOfJob(j));
    FilterAppend(h1, Event(y, 0), IsOfJob(j));
    FilterAppend(h2, Event(y, 1), IsOfJob(j));
    FilterAppend(h3, Event(x, 1), IsOfJob(j));
  }

  lemma MixedOnce(n: nat, x: nat, y: nat, j: nat)
    requires x < n && y < n && x != y && j < n
    ensures OfJob(Mixed(n, x, y), j) == Actions(j, if j == x || j == y then 2 else 1)
  {
    OthersOnce(n, x, y, j);
    MixedOfJob(Others(n, x, y), x, y, j);
  }

  lemma MixedInRange(n: nat, x: nat, y: nat)
    requires x < n && y < n
    ensures forall e :: e in Mixed(n, x, y) ==> e.job < n
  {
    OthersInRange(n, x, y);
  }

  function ClashJobs(requests: seq<Request>, x: nat, y: nat, day: string): (jobs: seq<Job>)
    ensures |jobs| == |requests|
  {
    JobsOf(requests, Clash(|requests|, x, y, day))
  }

  lemma ClashPrograms(requests: seq<Request>, x: nat, y: nat, day: string, j: nat)
    requires x != y && j < |requests|
    ensures Program(ClashJobs(requests, x, y, day)[j]) ==
      if j == x then [Save(requests[j].account, day, 1), SetOk(requests[j].account.accountId, requests[j].date)]
      else if j == y then [Save(requests[j].account, day, 2), SetOk(requests[j].account.accountId, requests[j].date)]
      else [AddError(requests[j].account.accountId, "")]
  {
    OneRowProgram(requests[j].account, requests[j].date, day, if j == x then 1 else 2);
  }

  lemma MixedIsComplete(requests: seq<Request>, x: nat, y: nat, day: string)
    requires x < |requests| && y < |requests| && x != y
    ensures var programs := Programs(ClashJobs(requests, x, y, day));
      Complete(programs, Mixed(|requests|, x, y)) && InRange(programs, Mixed(|requests|, x, y))
  {
    var n := |requests|;
    var programs := Programs(ClashJobs(requests, x, y, day));
    forall j: nat | j < n ensures OfJob(Mixed(n, x, y), j) == Actions(j, |programs[j]|) {
      MixedOnce(n, x, y, j);
      ClashPrograms(requests, x, y, day, j);
    }
    MixedInRange(n, x, y);
    CompleteInOrder(programs, Mixed(n, x, y));
  }

  lemma MixedOps(programs: seq<seq<Op>>, others: seq<Event>, x: nat, y: nat)
    requires InRange(programs, others) && x < |programs| && y < |programs| && |programs[x]| == |programs[y]| == 2
    ensures var h := others + [Event(x, 0)] + [Event(y, 0)] + [Event(y, 1)] + [Event(x, 1)];
      InRange(programs, h)
      && Ops(programs, h) == Ops(programs, others) + [programs[x][0], programs[y][0], programs[y][1], programs[x][1]]
  {
    var last := [Event(x, 0), Event(y, 0), Event(y, 1), Event(x, 1)];
    OpsSplit(programs, others, last);
    assert others + [Event(x, 0)] + [Event(y, 0)] + [Event(y, 1)] + [Event(x, 1)] == others + last;
  }

  lemma MixedLeaves(requests: seq<Request>, x: nat, y: nat, day: string, t: Tables)
    requires x < |requests| && y < |requests| && x != y && SameAccount(requests[x], requests[y])
    ensures var programs := Programs(ClashJobs(requests, x, y, day));
      InRange(programs, Mixed(|requests|, x, y))
      && EndsOn(RunOps(Ops(programs, Mixed(|requests|, x, y)), t), RowKey(requests[y].account, day), 2,
                requests[x].date)
  {
    var programs := Programs(ClashJobs(requests, x, y, day));
    var others := Others(|requests|, x, y);
    MixedIsComplete(requests, x, y, day);
    assert others == Mixed(|requests|, x, y)[..|others|];
    ClashPrograms(requests, x, y, day, x);
    ClashPrograms(requests, x, y, day, y);
    MixedOps(programs, others, x, y);
    var last := [programs[x][0], programs[y][0], programs[y][1], programs[x][1]];
    RunOpsSplit(Ops(programs, others), last, t);
    MixedEndsOn(requests[x], requests[y], day, RunOps(Ops(programs, others), t));
  }

  /** The figures and the date are of the same one of the two. */
  predicate EndsOnOne(requests: seq<Request>, x: nat, y: nat, day: string, t: Tables)
    requires x < |requests| && y < |requests|
  {
    var k := RowKey(requests[y].account, day);
    EndsOn(t, k, 1, requests[x].date) || EndsOn(t, k, 2, requests[y].date)
  }

  lemma ClashStep(requests: seq<Request>, x: nat, y: nat, day: string, j: nat, t: Tables)
    requires x < |requests| && y < |requests| && x != y && j < |requests| && SameAccount(requests[x], requests[y])
    ensures var u := RunOps(Program(ClashJobs(requests, x, y, day)[j]), t);
      if j == x || j == y then EndsOnOne(requests, x, y, day, u) else u == t
  {
    var r := requests[j];
    if j == x || j == y {
      AloneEndsOn(r.account, r.date, day, if j == x then 1 else 2, t);
    } else {
      ProgramEffect(ClashJobs(requests, x, y, day)[j], t);
    }
  }

  /** Jobs run one after the other, each given by its effect. */
  function InTurn(effect: (nat, Tables) -> Tables, order: seq<nat>, t: Tables): Tables {
    if order == [] then t else effect(order[|order| - 1], InTurn(effect, order[..|order| - 1], t))
  }

  /** When each of two jobs brings something about and the others change nothing, any order with one of the two does. */
  lemma {:induction false} LastDecides(
      effect: (nat, Tables) -> Tables, order: seq<nat>, n: nat, x: nat, y: nat, p: Tables -> bool, t: Tables)
    requires Indexes(order, n) && (x in order || y in order)
    requires forall j: nat, u: Tables :: j < n ==> if j == x || j == y then p(effect(j, u)) else effect(j, u) == u
    ensures p(InTurn(effect, order, t))
  {
    var init, last := order[..|order| - 1], order[|order| - 1];
    if last == x || last == y {
    } else {
      assert order == init + [last];
      LastDecides(effect, init, n, x, y, p, t);
    }
  }

  function EffectOf(jobs: seq<Job>): (nat, Tables) -> Tables {
    (j: nat, u: Tables) => if j < |jobs| then RunOps(Program(jobs[j]), u) else u
  }

  lemma {:induction false} SequentialInTurn(jobs: seq<Job>, order: seq<nat>, t: Tables)
    requires Indexes(order, |jobs|)
    ensures RunOps(SequentialOps(Programs(jobs), order), t) == InTurn(EffectOf(jobs), order, t)
  {
    if order == [] {
    } else {
      var init, last := order[..|order| - 1], order[|order| - 1];
      SequentialInTurn(jobs, init, t);
      RunOpsSplit(SequentialOps(Programs(jobs), init), Program(jobs[last]), t);
    }
  }

  /** One by one, whichever of the two came last decides both the figures and the date. */
  lemma SerialLeaves(requests: seq<Request>, x: nat, y: nat, day: string, order: seq<nat>, t: Tables)
    requires x < |requests| && y < |requests| && x != y && Indexes(order, |requests|)
    requires SameAccount(requests[x], requests[y]) && (x in order || y in order)
    ensures EndsOnOne(requests, x, y, day, RunOps(SequentialOps(Programs(ClashJobs(requests, x, y, day)), order), t))
  {
    var jobs := ClashJobs(requests, x, y, day);
    var p := (u: Tables) => x < |requests| && y < |requests| && EndsOnOne(requests, x, y, day, u);
    forall j: nat, u: Tables | j < |jobs|
      ensures if j == x || j == y then p(EffectOf(jobs)(j, u)) else EffectOf(jobs)(j, u) == u
    {
      ClashStep(requests, x, y, day, j, u);
    }
    LastDecides(EffectOf(jobs), order, |jobs|, x, y, p, t);
    SequentialInTurn(jobs, order, t);
  }

  /** One account asked for on two dates: its two jobs can fetch one key, of one of the two days, and leave the
      figures of one and the date of the other, which no order of the jobs leaves, whatever was stored. */
  lemma NotSerializable(requests: seq<Request>, x: nat, y: nat, t: Tables) returns (answers: seq<Answer>, h: seq<Event>)
    requires x < |requests| && y < |requests| && requests[x].date != requests[y].date
    requires SameAccount(requests[x], requests[y])
    ensures |answers| == |requests| && !Explained(JobsOf(requests, answers), h, t)
  {
    var day := requests[y].date;
    answers, h := Clash(|requests|, x, y, day), Mixed(|requests|, x, y);
    var jobs := ClashJobs(requests, x, y, day);
    MixedIsComplete(requests, x, y, day);
    MixedLeaves(requests, x, y, day, t);
    forall order ensures !Explains(jobs, h, t, order) {
      if Explains(jobs, h, t, order) {
        InEveryOrder(order, |requests|, x);
        SerialLeaves(requests, x, y, day, order, t);
      }
    }
  }

  lemma InEveryOrder(order: seq<nat>, n: nat, j: nat)
    requires multiset(order) == multiset(Range(n)) && j < n
    ensures j in order
  {
    assert Range(n)[j] == j;
    assert j in multiset(Range(n));
  }

  /** Overlapping syncs are safe, whatever is answered and however they interleave, exactly when no account is asked
      for on two dates. */
  lemma SerializableExactly(requests: seq<Request>)
    ensures AlwaysSerializable(requests) <==> AccountsApart(requests)
  {
    if AccountsApart(requests) {
      forall answers: seq<Answer>, h: seq<Event>, t: Tables | |answers| == |requests|
        ensures Explained(JobsOf(requests, answers), h, t)
      {
        ApartIsExplained(requests, answers, h, t);
      }
    } else {
      var x, y :| 0 <= x < |requests| && 0 <= y < |requests|
        && SameAccount(requests[x], requests[y]) && requests[x].date != requests[y].date;
      var answers, h := NotSerializable(requests, x, y, Tables(map[], map[], {}));
    }
  }
}
