/** Small failure datatypes, 64-bit wrap-around and sums shared by the other modules. */
module Wrappers {

  datatype Option<+T> = None | Some(value: T)

  datatype Result<+T, +E> = Ok(value: T) | Err(error: E)

  predicate NoRepeats<T(==)>(xs: seq<T>) {
    forall i, j :: 0 <= i < j < |xs| ==> xs[i] != xs[j]
  }

  const MIN_INT64 := -0x8000_0000_0000_0000
  const MAX_INT64 := 0x7fff_ffff_ffff_ffff

  /** The wrap-around that Go's int and time.Duration arithmetic is subject to. */
  function Wrap64(x: int): (w: int)
    ensures MIN_INT64 <= w <= MAX_INT64 && (MIN_INT64 <= x <= MAX_INT64 ==> w == x)
  {
    (x - MIN_INT64) % (MAX_INT64 - MIN_INT64 + 1) + MIN_INT64
  }

  function Sum(xs: seq<nat>): nat {
    if xs == [] then 0 else xs[0] + Sum(xs[1..])
  }

  /** Two sequences that differ at one place differ in their sums by that place's difference. */
  lemma {:induction false} SumChange(xs: seq<nat>, ys: seq<nat>, i: nat)
    requires |xs| == |ys| && i < |xs|
    requires forall k :: 0 <= k < |xs| && k != i ==> xs[k] == ys[k]
    ensures Sum(xs) + ys[i] == Sum(ys) + xs[i]
  {
    if i == 0 {
      assert xs[1..] == ys[1..];
    } else {
      SumChange(xs[1..], ys[1..], i - 1);
    }
  }

  lemma {:induction false} SumIsZero(xs: seq<nat>)
    ensures Sum(xs) == 0 <==> forall k :: 0 <= k < |xs| ==> xs[k] == 0
  {
    if xs == [] {
    } else {
      SumIsZero(xs[1..]);
      assert forall k :: 0 < k < |xs| ==> xs[k] == xs[1..][k - 1];
    }
  }

  // ----- Searching text -----

  /** The first place of c in s, or |s| when there is none. */
  function FirstIndex(s: string, c: char): (i: nat)
    ensures i <= |s| && c !in s[..i] && (i < |s| ==> s[i] == c)
  {
    if s == [] || s[0] == c then 0
    else
      var i := 1 + FirstIndex(s[1..], c);
      assert s[..i] == [s[0]] + s[1..][..i - 1];
      i
  }

  lemma FirstIndexIs(s: string, c: char, i: nat)
    requires i <= |s| && c !in s[..i] && (i < |s| ==> s[i] == c)
    ensures FirstIndex(s, c) == i
  {
    assert i < |s| ==> s[i] in s[..i + 1];
  }

  lemma SplitAround(x: string, c: char, y: string)
    ensures var s := x + [c] + y; s[..|x|] == x && s[|x|] == c && s[|x| + 1..] == y
  {
  }

  lemma FirstAt(x: string, c: char, y: string)
    requires c !in x
    ensures FirstIndex(x + [c] + y, c) == |x|
  {
    SplitAround(x, c, y);
    FirstIndexIs(x + [c] + y, c, |x|);
  }

  /** The last place of c in s, or -1 when there is none. */
  function LastIndex(s: string, c: char): (i: int)
    ensures -1 <= i < |s| && (i >= 0 ==> s[i] == c)
  {
    if s == "" then -1 else if s[|s| - 1] == c then |s| - 1 else LastIndex(s[..|s| - 1], c)
  }

  lemma {:induction false} LastAt(x: string, c: char, y: string)
    requires c !in y
    ensures LastIndex(x + [c] + y, c) == |x|
  {
    var s := x + [c] + y;
    if y == "" {
      assert s == x + [c];
    } else {
      assert s[..|s| - 1] == x + [c] + y[..|y| - 1];
      assert s[|s| - 1] == y[|y| - 1];
      LastAt(x, c, y[..|y| - 1]);
    }
  }
}
