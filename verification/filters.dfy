/** Keeping some elements of a sequence, in order, or what some of them give. */
module Filters {
  import opened Wrappers

  function Filter<T>(xs: seq<T>, keep: T -> bool): seq<T> {
    if xs == [] then []
    else Filter(xs[..|xs| - 1], keep) + (if keep(xs[|xs| - 1]) then [xs[|xs| - 1]] else [])
  }

  lemma {:induction false} FilterIs<T>(xs: seq<T>, keep: T -> bool, x: T)
    ensures x in Filter(xs, keep) <==> x in xs && keep(x)
  {
    if xs == [] {
    } else {
      FilterIs(xs[..|xs| - 1], keep, x);
      assert xs == xs[..|xs| - 1] + [xs[|xs| - 1]];
    }
  }

  lemma FilterAre<T>(xs: seq<T>, keep: T -> bool)
    ensures forall y <- Filter(xs, keep) :: y in xs && keep(y)
    ensures forall x <- xs :: keep(x) ==> x in Filter(xs, keep)
  {
    forall y <- Filter(xs, keep) ensures y in xs && keep(y) {
      FilterIs(xs, keep, y);
    }
    forall x <- xs | keep(x) ensures x in Filter(xs, keep) {
      FilterIs(xs, keep, x);
    }
  }

  lemma FilterAppend<T>(xs: seq<T>, x: T, keep: T -> bool)
    ensures Filter(xs + [x], keep) == Filter(xs, keep) + (if keep(x) then [x] else [])
  {
    assert (xs + [x])[..|xs|] == xs;
  }

  lemma {:induction false} FilterSplit<T>(xs: seq<T>, ys: seq<T>, keep: T -> bool)
    ensures Filter(xs + ys, keep) == Filter(xs, keep) + Filter(ys, keep)
  {
    if ys == [] {
      assert xs + ys == xs;
    } else {
      var init, last := ys[..|ys| - 1], ys[|ys| - 1];
      assert xs + ys == xs + init + [last];
      FilterAppend(xs + init, last, keep);
      FilterSplit(xs, init, keep);
    }
  }

  lemma FilterFirst<T>(xs: seq<T>, keep: T -> bool)
    requires xs != []
    ensures Filter(xs, keep) == (if keep(xs[0]) then [xs[0]] else []) + Filter(xs[1..], keep)
  {
    assert xs == [xs[0]] + xs[1..];
    FilterSplit([xs[0]], xs[1..], keep);
    FilterAppend([], xs[0], keep);
    assert [] + [xs[0]] == [xs[0]];
  }

  lemma {:induction false} FilterCounted<T>(xs: seq<T>, keep: T -> bool, x: T)
    ensures multiset(Filter(xs, keep))[x] == if keep(x) then multiset(xs)[x] else 0
  {
    if xs == [] {
    } else {
      var init, last := xs[..|xs| - 1], xs[|xs| - 1];
      FilterCounted(init, keep, x);
      assert xs == init + [last];
      CountOneMore(init, last, x);
      if keep(last) {
        CountOneMore(Filter(init, keep), last, x);
      } else {
        assert Filter(xs, keep) == Filter(init, keep);
      }
    }
  }

  lemma CountOneMore<T>(xs: seq<T>, y: T, x: T)
    ensures multiset(xs + [y])[x] == multiset(xs)[x] + if y == x then 1 else 0
  {
  }

  lemma {:induction false} SameFilter<T>(xs: seq<T>, p: T -> bool, q: T -> bool)
    requires forall x <- xs :: p(x) == q(x)
    ensures Filter(xs, p) == Filter(xs, q)
  {
    if xs == [] {
    } else {
      SameFilter(xs[..|xs| - 1], p, q);
    }
  }

  /** Keeping first by a condition that the other implies makes no difference. */
  lemma {:induction false} FilterTwice<T>(xs: seq<T>, p: T -> bool, q: T -> bool)
    requires forall x <- xs :: p(x) ==> q(x)
    ensures Filter(Filter(xs, q), p) == Filter(xs, p)
  {
    if xs == [] {
    } else {
      var init, last := xs[..|xs| - 1], xs[|xs| - 1];
      FilterTwice(init, p, q);
      if q(last) {
        FilterAppend(Filter(init, q), last, p);
      } else {
        assert Filter(xs, q) == Filter(init, q);
      }
    }
  }

  lemma {:induction false} FilterNone<T>(xs: seq<T>, keep: T -> bool)
    requires forall x <- xs :: !keep(x)
    ensures Filter(xs, keep) == []
  {
    if xs == [] {
    } else {
      FilterNone(xs[..|xs| - 1], keep);
    }
  }

  function Map<A, B>(f: A -> B, xs: seq<A>): (ys: seq<B>)
    ensures |ys| == |xs| && forall i :: 0 <= i < |xs| ==> ys[i] == f(xs[i])
  {
    seq(|xs|, i requires 0 <= i < |xs| => f(xs[i]))
  }

  lemma MapSplit<A, B>(f: A -> B, xs: seq<A>, ys: seq<A>)
    ensures Map(f, xs + ys) == Map(f, xs) + Map(f, ys)
  {
  }

  /** Keeping and then mapping is mapping and then keeping, when the two conditions agree. */
  lemma {:induction false} FilterMap<A, B>(xs: seq<A>, f: A -> B, p: A -> bool, q: B -> bool)
    requires forall x <- xs :: p(x) == q(f(x))
    ensures Map(f, Filter(xs, p)) == Filter(Map(f, xs), q)
  {
    if xs == [] {
    } else {
      var init, last := xs[..|xs| - 1], xs[|xs| - 1];
      FilterMap(init, f, p, q);
      assert Map(f, xs)[..|xs| - 1] == Map(f, init) && Map(f, xs)[|xs| - 1] == f(last);
      if p(last) {
        assert Map(f, Filter(init, p) + [last]) == Map(f, Filter(init, p)) + [f(last)];
      } else {
        assert Filter(xs, p) == Filter(init, p);
        assert Filter(Map(f, xs), q) == Filter(Map(f, init), q);
      }
    }
  }

  /** What f gives for the elements for which it gives something. */
  function Collect<A, B>(xs: seq<A>, f: A -> Option<B>): seq<B> {
    if xs == [] then []
    else
      var last := f(xs[|xs| - 1]);
      Collect(xs[..|xs| - 1], f) + (if last.Some? then [last.value] else [])
  }

  lemma CollectAppend<A, B>(xs: seq<A>, x: A, f: A -> Option<B>)
    ensures Collect(xs + [x], f) == Collect(xs, f) + (if f(x).Some? then [f(x).value] else [])
  {
    assert (xs + [x])[..|xs|] == xs;
  }

  lemma {:induction false} CollectSplit<A, B>(xs: seq<A>, ys: seq<A>, f: A -> Option<B>)
    ensures Collect(xs + ys, f) == Collect(xs, f) + Collect(ys, f)
  {
    if ys == [] {
      assert xs + ys == xs;
    } else {
      var init, last := ys[..|ys| - 1], ys[|ys| - 1];
      assert xs + ys == xs + init + [last];
      CollectAppend(xs + init, last, f);
      CollectSplit(xs, init, f);
    }
  }

  lemma {:induction false} CollectNone<A, B>(xs: seq<A>, f: A -> Option<B>)
    requires forall x <- xs :: f(x).None?
    ensures Collect(xs, f) == []
  {
    if xs == [] {
    } else {
      CollectNone(xs[..|xs| - 1], f);
    }
  }

  lemma CollectLast<A, B>(xs: seq<A>, f: A -> Option<B>)
    requires xs != [] && forall i :: 0 <= i < |xs| - 1 ==> f(xs[i]).None?
    ensures Collect(xs, f) == if f(xs[|xs| - 1]).Some? then [f(xs[|xs| - 1]).value] else []
  {
    CollectNone(xs[..|xs| - 1], f);
  }

  lemma {:induction false} CollectHolds<A, B>(xs: seq<A>, f: A -> Option<B>, p: B -> bool)
    requires forall x <- xs :: f(x).Some? ==> p(f(x).value)
    ensures forall i :: 0 <= i < |Collect(xs, f)| ==> p(Collect(xs, f)[i])
  {
    if xs == [] {
    } else {
      CollectHolds(xs[..|xs| - 1], f, p);
    }
  }

  /** What only one element gives is given as often as that element stands there. */
  lemma {:induction false} CollectCounted<A, B>(xs: seq<A>, f: A -> Option<B>, x: A, y: B)
    requires forall z <- xs :: f(z) == Some(y) <==> z == x
    ensures multiset(Collect(xs, f))[y] == multiset(xs)[x]
  {
    if xs == [] {
    } else {
      var init, last := xs[..|xs| - 1], xs[|xs| - 1];
      CollectCounted(init, f, x, y);
      assert xs == init + [last];
      CountOneMore(init, last, x);
      if f(last).Some? {
        CountOneMore(Collect(init, f), f(last).value, y);
      } else {
        assert Collect(xs, f) == Collect(init, f);
      }
    }
  }
}
