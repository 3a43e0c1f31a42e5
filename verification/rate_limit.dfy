/**
The per-token quota state and how response headers update it. Times and durations are nanoseconds, and
nothing depends on where the zero time of a token that is not blocked lies among them. Percentages are reals.
*/
module RateLimit {
  import opened Wrappers

  const SECOND := 1_000_000_000
  const MINUTE := 60 * SECOND
  const ZERO_TIME := 0

  datatype QuotaState = QuotaState(
    appUsagePct: real, bdcUsagePct: real, insightsPct: real, blockedUntil: int, estBlockMinutes: int)

  const NO_QUOTA := QuotaState(0.0, 0.0, 0.0, ZERO_TIME, 0)

  predicate IsBlocked(q: QuotaState, now: int) {
    now < q.blockedUntil
  }

  function UsagePct(q: QuotaState): real {
    var max := q.appUsagePct;
    var max := if q.bdcUsagePct > max then q.bdcUsagePct else max;
    if q.insightsPct > max then q.insightsPct else max
  }

  datatype Usage = Usage(callCount: real, totalCpu: real, totalTime: real, regainMinutes: int)

  /** The three quota headers, each None when absent or not decodable. */
  datatype Headers = Headers(
    app: Option<seq<real>>, business: Option<map<string, seq<Usage>>>, throttle: Option<seq<real>>)

  // ----- Running maxima -----

  /** m is the largest of xs, but never below zero. */
  ghost predicate FloorMax(xs: set<real>, m: real) {
    m >= 0.0 && (forall x :: x in xs ==> x <= m) && (m == 0.0 || m in xs)
  }

  ghost predicate FloorMaxInt(xs: set<int>, m: int) {
    m >= 0 && (forall x :: x in xs ==> x <= m) && (m == 0 || m in xs)
  }

  function Elements(xs: seq<real>): set<real> {
    set i | 0 <= i < |xs| :: xs[i]
  }

  method MaxFloat(vals: seq<real>) returns (m: real)
    ensures FloorMax(Elements(vals), m)
  {
    m := 0.0;
    for i := 0 to |vals|
      invariant FloorMax(Elements(vals[..i]), m)
    {
      assert Elements(vals[..i + 1]) == Elements(vals[..i]) + {vals[i]};
      if vals[i] > m {
        m := vals[i];
      }
    }
    assert vals[..|vals|] == vals;
  }

  function Figures(u: Usage): set<real> {
    {u.callCount, u.totalCpu, u.totalTime}
  }

  function Numbers(entries: seq<Usage>): set<real> {
    set i, x | 0 <= i < |entries| && x in Figures(entries[i]) :: x
  }

  function Minutes(entries: seq<Usage>): set<int> {
    set i | 0 <= i < |entries| :: entries[i].regainMinutes
  }

  function BusinessNumbers(bm: map<string, seq<Usage>>, keys: set<string>): set<real> {
    set k, x | k in keys && k in bm && x in Numbers(bm[k]) :: x
  }

  function BusinessMinutes(bm: map<string, seq<Usage>>, keys: set<string>): set<int> {
    set k, x | k in keys && k in bm && x in Minutes(bm[k]) :: x
  }

  /** One business's entries folded into the running maxima. */
  method FoldEntries(entries: seq<Usage>, ghost xs: set<real>, ghost ys: set<int>, pct0: real, mins0: int)
    returns (pct: real, mins: int)
    requires FloorMax(xs, pct0) && FloorMaxInt(ys, mins0)
    ensures FloorMax(xs + Numbers(entries), pct) && FloorMaxInt(ys + Minutes(entries), mins)
  {
    pct, mins := pct0, mins0;
    for i := 0 to |entries|
      invariant FloorMax(xs + Numbers(entries[..i]), pct) && FloorMaxInt(ys + Minutes(entries[..i]), mins)
    {
      var e := entries[i];
      var most := MaxFloat([e.callCount, e.totalCpu, e.totalTime]);
      assert Elements([e.callCount, e.totalCpu, e.totalTime]) == Figures(e) by {
        var s := [e.callCount, e.totalCpu, e.totalTime];
        assert s[0] in Elements(s) && s[1] in Elements(s) && s[2] in Elements(s);
      }
      NumbersAppend(entries, i);
      if most > pct {
        pct := most;
      }
      if e.regainMinutes > mins {
        mins := e.regainMinutes;
      }
    }
    assert entries[..|entries|] == entries;
  }

  lemma NumbersAppend(entries: seq<Usage>, i: nat)
    requires i < |entries|
    ensures Numbers(entries[..i + 1]) == Numbers(entries[..i]) + Figures(entries[i])
    ensures Minutes(entries[..i + 1]) == Minutes(entries[..i]) + {entries[i].regainMinutes}
  {
    var before, after := entries[..i], entries[..i + 1];
    assert forall k :: 0 <= k < i ==> before[k] == after[k];
    assert after[i] == entries[i];
    forall x | x in Numbers(after) ensures x in Numbers(before) + Figures(entries[i]) {
      var k :| 0 <= k < |after| && x in Figures(after[k]);
      assert k < i ==> x in Figures(before[k]);
    }
    forall x | x in Numbers(before) ensures x in Numbers(after) {
      var k :| 0 <= k < |before| && x in Figures(before[k]);
      assert x in Figures(after[k]);
    }
  }

  /** The loop over the Go map, whose order of iteration is arbitrary. */
  method FoldBusinesses(bm: map<string, seq<Usage>>) returns (pct: real, mins: int)
    ensures FloorMax(BusinessNumbers(bm, bm.Keys), pct) && FloorMaxInt(BusinessMinutes(bm, bm.Keys), mins)
  {
    pct, mins := 0.0, 0;
    var todo, done: set<string> := bm.Keys, {};
    while todo != {}
      invariant todo + done == bm.Keys && todo !! done
      invariant FloorMax(BusinessNumbers(bm, done), pct) && FloorMaxInt(BusinessMinutes(bm, done), mins)
      decreases todo
    {
      var k :| k in todo;
      pct, mins := FoldEntries(bm[k], BusinessNumbers(bm, done), BusinessMinutes(bm, done), pct, mins);
      assert BusinessNumbers(bm, done + {k}) == BusinessNumbers(bm, done) + Numbers(bm[k]);
      assert BusinessMinutes(bm, done + {k}) == BusinessMinutes(bm, done) + Minutes(bm[k]);
      todo, done := todo - {k}, done + {k};
    }
    assert done == bm.Keys;
  }

  // ----- What a response says -----

  function AppNumbers(h: Headers): set<real> {
    if h.app.Some? then Elements(h.app.value) else {}
  }

  function BdcNumbers(h: Headers): set<real> {
    if h.business.Some? then BusinessNumbers(h.business.value, h.business.value.Keys) else {}
  }

  function ThrottleNumbers(h: Headers): set<real> {
    if h.throttle.Some? then Elements(h.throttle.value) else {}
  }

  function RegainMinutes(h: Headers): set<int> {
    if h.business.Some? then BusinessMinutes(h.business.value, h.business.value.Keys) else {}
  }

  /** q is the quota state these headers describe at this time: each figure the maximum of its header's numbers. */
  ghost predicate Describes(h: Headers, now: int, q: QuotaState) {
    && FloorMax(AppNumbers(h), q.appUsagePct)
    && FloorMax(BdcNumbers(h), q.bdcUsagePct)
    && FloorMax(ThrottleNumbers(h), q.insightsPct)
    && FloorMaxInt(RegainMinutes(h), q.estBlockMinutes)
    && q.blockedUntil == if q.estBlockMinutes > 0 then now + Wrap64(q.estBlockMinutes * 60_000_000_000) else ZERO_TIME
  }

  /** The headers settle the state: the order in which the businesses are visited does not matter. */
  lemma OneDescription(h: Headers, now: int, p: QuotaState, q: QuotaState)
    requires Describes(h, now, p) && Describes(h, now, q)
    ensures p == q
  {
    assert forall xs, m, n :: FloorMax(xs, m) && FloorMax(xs, n) ==> m == n;
    assert forall xs, m, n :: FloorMaxInt(xs, m) && FloorMaxInt(xs, n) ==> m == n;
  }

  /** The same spelled out: no number of a header is above its figure, and a figure above zero is one of its header's
      numbers. */
  ghost predicate FiguresOf(h: Headers, q: QuotaState) {
    && q.appUsagePct >= 0.0 && q.bdcUsagePct >= 0.0 && q.insightsPct >= 0.0 && q.estBlockMinutes >= 0
    && (h.app.Some? ==> forall x <- h.app.value :: x <= q.appUsagePct)
    && (q.appUsagePct > 0.0 ==> h.app.Some? && q.appUsagePct in h.app.value)
    && (h.throttle.Some? ==> forall x <- h.throttle.value :: x <= q.insightsPct)
    && (q.insightsPct > 0.0 ==> h.throttle.Some? && q.insightsPct in h.throttle.value)
    && (h.business.Some? ==> forall k <- h.business.value :: forall u <- h.business.value[k] :: IsBelow(u, q))
    && (q.bdcUsagePct > 0.0 ==>
          h.business.Some? && exists k <- h.business.value :: exists u <- h.business.value[k] ::
            q.bdcUsagePct == u.callCount || q.bdcUsagePct == u.totalCpu || q.bdcUsagePct == u.totalTime)
    && (q.estBlockMinutes > 0 ==>
          h.business.Some? && exists k <- h.business.value :: exists u <- h.business.value[k] ::
            q.estBlockMinutes == u.regainMinutes)
  }

  predicate IsBelow(u: Usage, q: QuotaState) {
    && u.callCount <= q.bdcUsagePct && u.totalCpu <= q.bdcUsagePct && u.totalTime <= q.bdcUsagePct
    && u.regainMinutes <= q.estBlockMinutes
  }

  lemma ElementsAre(xs: seq<real>, x: real)
    ensures x in Elements(xs) <==> x in xs
  {
  }

  lemma FigureCounts(bm: map<string, seq<Usage>>, k: string, i: nat, x: real)
    requires k in bm && i < |bm[k]| && x in Figures(bm[k][i])
    ensures x in BusinessNumbers(bm, bm.Keys)
  {
    assert x in Numbers(bm[k]);
  }

  lemma MinutesCount(bm: map<string, seq<Usage>>, k: string, i: nat)
    requires k in bm && i < |bm[k]|
    ensures bm[k][i].regainMinutes in BusinessMinutes(bm, bm.Keys)
  {
    assert bm[k][i].regainMinutes in Minutes(bm[k]);
  }

  lemma EntryIsBelow(h: Headers, now: int, q: QuotaState, k: string, i: nat)
    requires Describes(h, now, q) && h.business.Some? && k in h.business.value && i < |h.business.value[k]|
    ensures IsBelow(h.business.value[k][i], q)
  {
    var bm := h.business.value;
    var u: Usage := bm[k][i];
    FigureCounts(bm, k, i, u.callCount);
    FigureCounts(bm, k, i, u.totalCpu);
    FigureCounts(bm, k, i, u.totalTime);
    MinutesCount(bm, k, i);
  }

  lemma DescribedFigures(h: Headers, now: int, q: QuotaState)
    requires Describes(h, now, q)
    ensures FiguresOf(h, q)
  {
    if h.app.Some? {
      forall x ensures x in AppNumbers(h) <==> x in h.app.value {
        ElementsAre(h.app.value, x);
      }
    }
    if h.throttle.Some? {
      forall x ensures x in ThrottleNumbers(h) <==> x in h.throttle.value {
        ElementsAre(h.throttle.value, x);
      }
    }
    if h.business.Some? {
      forall k <- h.business.value, u <- h.business.value[k] ensures IsBelow(u, q) {
        var i :| 0 <= i < |h.business.value[k]| && h.business.value[k][i] == u;
        EntryIsBelow(h, now, q, k, i);
      }
    }
  }

  /** The usage that slows the client down is the maximum of every number in the three headers. */
  lemma UsageIsOverallMax(h: Headers, now: int, q: QuotaState)
    requires Describes(h, now, q)
    ensures FloorMax(AppNumbers(h) + BdcNumbers(h) + ThrottleNumbers(h), UsagePct(q))
  {
  }

  // ----- The limiter -----

  function StateOf(states: map<string, QuotaState>, token: string): QuotaState {
    if token in states then states[token] else NO_QUOTA
  }

  function Blocked(states: map<string, QuotaState>, token: string, until: int): map<string, QuotaState> {
    states[token := StateOf(states, token).(blockedUntil := until)]
  }

  class RateLimiter {
    var states: map<string, QuotaState>

    constructor ()
      ensures states == map[]
    {
      states := map[];
    }

    method UpdateFromResponse(token: string, h: Headers, now: int)
      modifies this
      ensures token in states && Describes(h, now, states[token]) && FiguresOf(h, states[token])
      ensures states == old(states)[token := states[token]]
    {
      var app, bdc, insights, est := 0.0, 0.0, 0.0, 0;
      if h.app.Some? {
        app := MaxFloat(h.app.value);
      }
      if h.business.Some? {
        bdc, est := FoldBusinesses(h.business.value);
      }
      if h.throttle.Some? {
        insights := MaxFloat(h.throttle.value);
      }
      var until := if est > 0 then now + Wrap64(est * MINUTE) else ZERO_TIME;
      states := states[token := QuotaState(app, bdc, insights, until, est)];
      DescribedFigures(h, now, states[token]);
    }

    method BlockToken(token: string, d: int, now: int)
      modifies this
      ensures states == Blocked(old(states), token, now + d)
      ensures states.Keys == old(states).Keys + {token}
      ensures forall other <- old(states) :: other != token ==> states[other] == old(states)[other]
      ensures states[token] == if token in old(states) then old(states)[token].(blockedUntil := now + d)
        else QuotaState(0.0, 0.0, 0.0, now + d, 0)
    {
      if token !in states {
        states := states[token := NO_QUOTA];
      }
      states := states[token := states[token].(blockedUntil := now + d)];
    }

    method GetState(token: string) returns (q: QuotaState)
      ensures q == StateOf(states, token)
    {
      if token in states {
        return states[token];
      }
      return NO_QUOTA;
    }
  }
}
