/**
Histories of jobs that each run a fixed program of atomic actions: `programs[j]` is job j's program and a
history lists which action of which job came when.
*/
module Histories {
  import opened Filters
  import opened Pool

  function Work<T>(programs: seq<seq<T>>): (w: seq<nat>)
    ensures |w| == |programs| && forall j :: 0 <= j < |programs| ==> w[j] == |programs[j]|
  {
    seq(|programs|, j requires 0 <= j < |programs| => |programs[j]|)
  }

  predicate InRange<T>(programs: seq<seq<T>>, h: seq<Event>) {
    forall i :: 0 <= i < |h| ==> h[i].job < |programs| && h[i].action < |programs[h[i].job]|
  }

  function Ops<T>(programs: seq<seq<T>>, h: seq<Event>): (ops: seq<T>)
    requires InRange(programs, h)
    ensures |ops| == |h| && forall i :: 0 <= i < |h| ==> ops[i] == programs[h[i].job][h[i].action]
  {
    seq(|h|, i requires 0 <= i < |h| => programs[h[i].job][h[i].action])
  }

  lemma OpsSplit<T>(programs: seq<seq<T>>, x: seq<Event>, y: seq<Event>)
    requires InRange(programs, x) && InRange(programs, y)
    ensures InRange(programs, x + y) && Ops(programs, x + y) == Ops(programs, x) + Ops(programs, y)
  {
  }

  /** Every job has so far run some first part of its program, each action once and in order. */
  ghost predicate InOrder<T>(programs: seq<seq<T>>, h: seq<Event>) {
    && (forall e :: e in h ==> e.job < |programs|)
    && forall j :: 0 <= j < |programs| ==>
        |OfJob(h, j)| <= |programs[j]| && OfJob(h, j) == Actions(j, |OfJob(h, j)|)
  }

  /** Every job has run its whole program. */
  ghost predicate Complete<T>(programs: seq<seq<T>>, h: seq<Event>) {
    ExactlyOnce(Work(programs), h)
  }

  lemma OfJobHolds(h: seq<Event>, i: nat)
    requires i < |h|
    ensures h[i] in OfJob(h, h[i].job)
  {
    FilterIs(h, IsOfJob(h[i].job), h[i]);
  }

  lemma OfJobFrom(h: seq<Event>, j: nat, e: Event)
    requires e in OfJob(h, j)
    ensures e in h
  {
    FilterIs(h, IsOfJob(j), e);
  }

  lemma InOrderInRange<T>(programs: seq<seq<T>>, h: seq<Event>)
    requires InOrder(programs, h)
    ensures InRange(programs, h)
  {
    forall i | 0 <= i < |h| ensures h[i].job < |programs| && h[i].action < |programs[h[i].job]| {
      assert h[i] in h;
      OfJobHolds(h, i);
    }
  }

  lemma CompleteInOrder<T>(programs: seq<seq<T>>, h: seq<Event>)
    requires Complete(programs, h)
    ensures InOrder(programs, h) && InRange(programs, h)
  {
    InOrderInRange(programs, h);
  }

  lemma {:induction false} InOrderPrefix<T>(programs: seq<seq<T>>, h: seq<Event>, k: nat)
    requires InOrder(programs, h) && k <= |h|
    ensures InOrder(programs, h[..k])
  {
    if k == |h| {
      assert h[..k] == h;
    } else {
      var last := |h| - 1;
      forall j | 0 <= j < |programs|
        ensures |OfJob(h[..last], j)| <= |programs[j]| && OfJob(h[..last], j) == Actions(j, |OfJob(h[..last], j)|)
      {
        assert OfJob(h[..last], j) == OfJob(h, j)[..|OfJob(h[..last], j)|];
      }
      InOrderPrefix(programs, h[..last], k);
      assert h[..last][..k] == h[..k];
    }
  }

  /** A job's first action comes before its others. */
  lemma FirstComesFirst<T>(programs: seq<seq<T>>, h: seq<Event>, k: nat) returns (i: nat)
    requires InOrder(programs, h) && k < |h| && h[k].action > 0
    ensures i < k && h[i] == Event(h[k].job, 0)
  {
    var j := h[k].job;
    assert h[k] in h;
    InOrderPrefix(programs, h, k + 1);
    InOrderPrefix(programs, h, k);
    assert h[..k + 1] == h[..k] + [h[k]];
    FilterAppend(h[..k], h[k], IsOfJob(j));
    var before := OfJob(h[..k], j);
    assert OfJob(h[..k + 1], j)[|before|] == h[k];
    assert before[0] == Event(j, 0);
    OfJobFrom(h[..k], j, before[0]);
    i :| 0 <= i < k && h[..k][i] == before[0];
  }

  // ----- Sequential histories -----

  function Range(n: nat): (r: seq<nat>)
    ensures |r| == n && forall i :: 0 <= i < n ==> r[i] == i
  {
    seq(n, i requires 0 <= i => i)
  }

  predicate Indexes(order: seq<nat>, n: nat) {
    forall i :: 0 <= i < |order| ==> order[i] < n
  }

  /** Running the programs one by one in the given order. */
  function SequentialOps<T>(programs: seq<seq<T>>, order: seq<nat>): seq<T>
    requires Indexes(order, |programs|)
  {
    if order == [] then []
    else SequentialOps(programs, order[..|order| - 1]) + programs[order[|order| - 1]]
  }

  lemma {:induction false} SequentialSplit<T>(programs: seq<seq<T>>, x: seq<nat>, y: seq<nat>)
    requires Indexes(x, |programs|) && Indexes(y, |programs|) && Indexes(x + y, |programs|)
    ensures SequentialOps(programs, x + y) == SequentialOps(programs, x) + SequentialOps(programs, y)
  {
    if y == [] {
      assert x + y == x;
    } else {
      var init, last := y[..|y| - 1], y[|y| - 1];
      assert (x + y)[..|x + y| - 1] == x + init && (x + y)[|x + y| - 1] == last;
      SequentialSplit(programs, x, init);
    }
  }

  lemma SequentialStep<T>(programs: seq<seq<T>>, n: nat)
    requires 0 < n <= |programs|
    ensures SequentialOps(programs, Range(n)) == SequentialOps(programs, Range(n - 1)) + programs[n - 1]
  {
    assert Range(n)[..n - 1] == Range(n - 1);
  }

  function SequentialHistory(work: seq<nat>): seq<Event> {
    if work == [] then [] else SequentialHistory(work[..|work| - 1]) + Actions(|work| - 1, work[|work| - 1])
  }

  lemma {:induction false} OfJobActions(i: nat, k: nat, j: nat)
    ensures OfJob(Actions(i, k), j) == if i == j then Actions(i, k) else []
  {
    if k == 0 {
    } else {
      assert Actions(i, k)[..k - 1] == Actions(i, k - 1);
      OfJobActions(i, k - 1, j);
    }
  }

  lemma ActionsRunProgram<T>(programs: seq<seq<T>>, j: nat)
    requires j < |programs|
    ensures InRange(programs, Actions(j, |programs[j]|)) && Ops(programs, Actions(j, |programs[j]|)) == programs[j]
  {
  }

  lemma {:induction false} SequentialRuns<T>(programs: seq<seq<T>>, n: nat)
    requires n <= |programs|
    ensures InRange(programs, SequentialHistory(Work(programs)[..n]))
    ensures Ops(programs, SequentialHistory(Work(programs)[..n])) == SequentialOps(programs, Range(n))
  {
    if n == 0 {
    } else {
      SequentialRuns(programs, n - 1);
      assert Range(n)[..n - 1] == Range(n - 1);
      assert Work(programs)[..n][..n - 1] == Work(programs)[..n - 1];
      var before := SequentialHistory(Work(programs)[..n - 1]);
      ActionsRunProgram(programs, n - 1);
      OpsSplit(programs, before, Actions(n - 1, |programs[n - 1]|));
    }
  }

  lemma {:induction false} SequentialOfJob(work: seq<nat>, j: nat)
    ensures OfJob(SequentialHistory(work), j) == if j < |work| then Actions(j, work[j]) else []
  {
    if work == [] {
    } else {
      var n := |work| - 1;
      var x, y := SequentialHistory(work[..n]), Actions(n, work[n]);
      SequentialOfJob(work[..n], j);
      FilterSplit(x, y, IsOfJob(j));
      OfJobActions(n, work[n], j);
      assert OfJob(SequentialHistory(work), j) == OfJob(x, j) + OfJob(y, j);
    }
  }

  lemma SequentialIsComplete<T>(programs: seq<seq<T>>)
    ensures var h := SequentialHistory(Work(programs));
      Complete(programs, h) && InRange(programs, h) && Ops(programs, h) == SequentialOps(programs, Range(|programs|))
  {
    SequentialRuns(programs, |programs|);
    assert Work(programs)[..|programs|] == Work(programs);
    forall j | 0 <= j < |programs| ensures OfJob(SequentialHistory(Work(programs)), j) == Actions(j, |programs[j]|) {
      SequentialOfJob(Work(programs), j);
    }
  }

  // ----- A complete history makes the same writes as a sequential run -----

  lemma {:induction false} OfJobInRange<T>(programs: seq<seq<T>>, h: seq<Event>, j: nat)
    requires InRange(programs, h)
    ensures InRange(programs, OfJob(h, j))
  {
    if h == [] {
    } else {
      OfJobInRange(programs, h[..|h| - 1], j);
    }
  }

  lemma WholeProgram<T>(programs: seq<seq<T>>, h: seq<Event>, j: nat)
    requires Complete(programs, h) && j < |programs|
    ensures InRange(programs, OfJob(h, j)) && Ops(programs, OfJob(h, j)) == programs[j]
  {
    assert OfJob(h, j) == Actions(j, |programs[j]|);
  }

  /** How often job j's actions in a history are x. */
  ghost function TimesInJob<T>(programs: seq<seq<T>>, h: seq<Event>, j: nat, x: T): nat
    requires InRange(programs, h)
  {
    if h == [] then 0
    else
      var e := h[|h| - 1];
      TimesInJob(programs, h[..|h| - 1], j, x) + (if e.job == j && programs[e.job][e.action] == x then 1 else 0)
  }

  lemma {:induction false} TimesInJobCounted<T>(programs: seq<seq<T>>, h: seq<Event>, j: nat, x: T)
    requires InRange(programs, h)
    ensures InRange(programs, OfJob(h, j)) && TimesInJob(programs, h, j, x) == multiset(Ops(programs, OfJob(h, j)))[x]
  {
    OfJobInRange(programs, h, j);
    if h == [] {
    } else {
      var last := |h| - 1;
      TimesInJobCounted(programs, h[..last], j, x);
      if h[last].job == j {
        assert Ops(programs, OfJob(h, j)) == Ops(programs, OfJob(h[..last], j)) + [programs[j][h[last].action]];
      } else {
        assert OfJob(h, j) == OfJob(h[..last], j);
      }
    }
  }

  ghost function TimesInJobs<T>(programs: seq<seq<T>>, h: seq<Event>, n: nat, x: T): nat
    requires InRange(programs, h)
  {
    if n == 0 then 0 else TimesInJobs(programs, h, n - 1, x) + TimesInJob(programs, h, n - 1, x)
  }

  lemma {:induction false} OneMoreInJobs<T>(programs: seq<seq<T>>, h: seq<Event>, e: Event, n: nat, x: T)
    requires InRange(programs, h) && InRange(programs, h + [e])
    requires e.job < |programs| && e.action < |programs[e.job]|
    ensures TimesInJobs(programs, h + [e], n, x)
         == TimesInJobs(programs, h, n, x) + (if e.job < n && programs[e.job][e.action] == x then 1 else 0)
  {
    if n == 0 {
    } else {
      OneMoreInJobs(programs, h, e, n - 1, x);
      assert (h + [e])[..|h|] == h;
    }
  }

  lemma {:induction false} NeverInJobs<T>(programs: seq<seq<T>>, n: nat, x: T)
    ensures TimesInJobs(programs, [], n, x) == 0
  {
    if n == 0 {
    } else {
      NeverInJobs(programs, n - 1, x);
    }
  }

  lemma {:induction false} TimesInAll<T>(programs: seq<seq<T>>, h: seq<Event>, x: T)
    requires InRange(programs, h)
    ensures multiset(Ops(programs, h))[x] == TimesInJobs(programs, h, |programs|, x)
  {
    if h == [] {
      NeverInJobs(programs, |programs|, x);
    } else {
      var last := |h| - 1;
      TimesInAll(programs, h[..last], x);
      assert h == h[..last] + [h[last]];
      OneMoreInJobs(programs, h[..last], h[last], |programs|, x);
      assert Ops(programs, h) == Ops(programs, h[..last]) + [programs[h[last].job][h[last].action]];
    }
  }

  lemma {:induction false} TimesWhenComplete<T>(programs: seq<seq<T>>, h: seq<Event>, n: nat, x: T)
    requires Complete(programs, h) && n <= |programs|
    ensures InRange(programs, h)
    ensures TimesInJobs(programs, h, n, x) == multiset(SequentialOps(programs, Range(n)))[x]
  {
    CompleteInOrder(programs, h);
    if n == 0 {
    } else {
      TimesWhenComplete(programs, h, n - 1, x);
      TimesInJobCounted(programs, h, n - 1, x);
      WholeProgram(programs, h, n - 1);
      assert Range(n)[..n - 1] == Range(n - 1);
    }
  }

  /** Whatever the interleaving, each action of each program happens as often as when the programs run one by one. */
  lemma SameActions<T(!new)>(programs: seq<seq<T>>, h: seq<Event>)
    requires Complete(programs, h)
    ensures InRange(programs, h) && multiset(Ops(programs, h)) == multiset(SequentialOps(programs, Range(|programs|)))
  {
    CompleteInOrder(programs, h);
    forall x: T ensures multiset(Ops(programs, h))[x] == multiset(SequentialOps(programs, Range(|programs|)))[x] {
      TimesInAll(programs, h, x);
      TimesWhenComplete(programs, h, |programs|, x);
    }
  }
}
