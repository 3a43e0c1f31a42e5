/**
LIMIT/OFFSET paging over a fixed ordering of the matching rows, and the page count shown beside it. The offset is a
64-bit product.
*/
module Paging {
  import opened Wrappers

  function Min(x: int, y: int): int {
    if x < y then x else y
  }

  function Slice<T>(rows: seq<T>, from: nat, size: nat): seq<T> {
    rows[Min(from, |rows|)..Min(from + size, |rows|)]
  }

  /** The rows of page p as a reader counts them, from 1. */
  function TruePage<T>(rows: seq<T>, p: nat, size: nat): seq<T>
    requires p >= 1
  {
    Slice(rows, (p - 1) * size, size)
  }

  /** LIMIT and OFFSET. SQLite reads a negative offset as none; PostgreSQL refuses it. */
  function Window<T>(rows: seq<T>, limit: int, offset: int, postgres: bool): Option<seq<T>>
    requires limit >= 1
  {
    if offset < 0 && postgres then None
    else
      var lo := if offset < 0 then 0 else Min(offset, |rows|);
      Some(rows[lo..Min(lo + limit, |rows|)])
  }

  function ClampPage(page: int): (p: nat)
    ensures p >= 1
  {
    if page < 1 then 1 else page
  }

  function ClampSize(size: int): (s: nat)
    ensures s >= 1
  {
    if size < 1 then 50 else size
  }

  /** The offset the query asks for. */
  function OffsetOf(p: nat, size: nat): int
    requires p >= 1
  {
    Wrap64((p - 1) * size)
  }

  /** The rows ListSpendRaw returns, of all those its filter matches. */
  function ListPage<T>(rows: seq<T>, page: int, size: int, postgres: bool): Option<seq<T>> {
    var p, s := ClampPage(page), ClampSize(size);
    Window(rows, s, OffsetOf(p, s), postgres)
  }

  /** The guard the code does not have: the offset fits. */
  predicate OffsetFits(page: int, size: int) {
    (ClampPage(page) - 1) * ClampSize(size) <= MAX_INT64
  }

  lemma WindowIsSlice<T>(rows: seq<T>, offset: nat, size: nat, postgres: bool)
    requires size >= 1 && offset <= MAX_INT64
    ensures Window(rows, size, Wrap64(offset), postgres) == Some(Slice(rows, offset, size))
  {
  }

  lemma FittingPage<T>(rows: seq<T>, page: int, size: int, postgres: bool)
    requires OffsetFits(page, size)
    ensures ListPage(rows, page, size, postgres) == Some(TruePage(rows, ClampPage(page), ClampSize(size)))
  {
    var p, s := ClampPage(page), ClampSize(size);
    WindowIsSlice(rows, (p - 1) * s, s, postgres);
  }

  lemma WrappedWindow<T>(x: T, offset: nat, size: nat, postgres: bool) returns (rows: seq<T>)
    requires size >= 1 && offset > MAX_INT64
    ensures Window(rows, size, Wrap64(offset), postgres) != Some(Slice(rows, offset, size))
  {
    var w := Wrap64(offset);
    rows := seq(if w < 0 then 1 else w + 1, _ => x);
    assert Slice(rows, offset, size) == [];
  }

  /** A wrapped offset shows rows, or an error, where there is no page. */
  lemma WrappedPage<T>(x: T, page: int, size: int, postgres: bool) returns (rows: seq<T>)
    requires !OffsetFits(page, size)
    ensures ListPage(rows, page, size, postgres) != Some(TruePage(rows, ClampPage(page), ClampSize(size)))
  {
    var p, s := ClampPage(page), ClampSize(size);
    rows := WrappedWindow(x, (p - 1) * s, s, postgres);
  }

  /** A wrapped offset shows the right, that is an empty, page of an ordinary table exactly when it still lies past the
      last row, or is negative on SQLite and there are no rows. */
  lemma PastTheEnd<T>(rows: seq<T>, offset: nat, size: nat, postgres: bool)
    requires size >= 1 && |rows| <= MAX_INT64 < offset
    ensures Window(rows, size, Wrap64(offset), postgres) == Some(Slice(rows, offset, size))
      <==> Wrap64(offset) >= |rows| || (Wrap64(offset) < 0 && !postgres && rows == [])
  {
    assert Slice(rows, offset, size) == [];
  }

  /** A page shows its own rows of a table exactly when its offset fits, or wraps to where this table has none. */
  lemma RightExactly<T>(rows: seq<T>, page: int, size: int, postgres: bool)
    requires |rows| <= MAX_INT64
    ensures var w := OffsetOf(ClampPage(page), ClampSize(size));
      ListPage(rows, page, size, postgres) == Some(TruePage(rows, ClampPage(page), ClampSize(size)))
      <==> OffsetFits(page, size) || w >= |rows| || (w < 0 && !postgres && rows == [])
  {
    if OffsetFits(page, size) {
      FittingPage(rows, page, size, postgres);
    } else {
      PastTheEnd(rows, (ClampPage(page) - 1) * ClampSize(size), ClampSize(size), postgres);
    }
  }

  /** A page number a browser can send: far past the end, SQLite shows the first page again and PostgreSQL refuses. */
  lemma WrappedToFirst<T>(rows: seq<T>)
    requires 1 <= |rows| <= MAX_INT64
    ensures TruePage(rows, 184467440737095518, 50) == []
    ensures ListPage(rows, 184467440737095518, 50, false) == Some(TruePage(rows, 1, 50)) != Some([])
    ensures ListPage(rows, 184467440737095518, 50, true) == None
  {
    assert OffsetOf(184467440737095518, 50) == -9223372036854775766;
  }

  /** A page is right for every table exactly when its offset fits in 64 bits. */
  lemma RightExactlyWhenItFits<T(!new)>(x: T, page: int, size: int, postgres: bool)
    ensures OffsetFits(page, size) <==>
      forall rows: seq<T> :: ListPage(rows, page, size, postgres)
        == Some(TruePage(rows, ClampPage(page), ClampSize(size)))
  {
    if OffsetFits(page, size) {
      forall rows: seq<T> ensures ListPage(rows, page, size, postgres)
        == Some(TruePage(rows, ClampPage(page), ClampSize(size))) {
        FittingPage(rows, page, size, postgres);
      }
    } else {
      var rows := WrappedPage(x, page, size, postgres);
    }
  }

  /** The smallest number of pages, at least one, that hold all rows. */
  ghost predicate PageCount(total: nat, size: nat, p: nat) {
    p >= 1 && if total == 0 || size == 0 then p == 1 else (p - 1) * size < total <= p * size
  }

  method TotalPages(total: nat, size: nat) returns (p: nat)
    ensures PageCount(total, size, p)
  {
    if total == 0 || size == 0 {
      return 1;
    }
    p := total / size;
    if total % size != 0 {
      p := p + 1;
    }
    Division(total, size);
  }

  lemma Division(x: nat, y: nat)
    requires y > 0
    ensures x == (x / y) * y + x % y
    ensures x > 0 && x % y == 0 ==> x / y >= 1 && (x / y - 1) * y == x - y
    ensures (x / y + 1) * y == x - x % y + y
  {
  }

  /** The first k pages one after the other, every one as ListSpendRaw returns it. */
  function FirstPages<T>(rows: seq<T>, size: int, k: nat, postgres: bool): Option<seq<T>> {
    if k == 0 then Some([])
    else
      var before, page := FirstPages(rows, size, k - 1, postgres), ListPage(rows, k, size, postgres);
      if before.Some? && page.Some? then Some(before.value + page.value) else None
  }

  lemma SliceExtends<T>(rows: seq<T>, from: nat, size: nat)
    ensures rows[..Min(from, |rows|)] + Slice(rows, from, size) == rows[..Min(from + size, |rows|)]
  {
  }

  lemma NextOffset(p: nat, s: nat)
    requires p >= 1
    ensures p * s == (p - 1) * s + s && (p - 1) * s >= 0
  {
  }

  lemma SmallerFits(k: nat, size: nat)
    requires k >= 1 && size >= 1 && OffsetFits(k, size)
    ensures OffsetFits(k - 1, size)
  {
    if k > 1 {
      NextOffset(k - 1, size);
    }
  }

  lemma {:induction false} FirstPagesAre<T>(rows: seq<T>, size: nat, k: nat, postgres: bool)
    requires size >= 1 && OffsetFits(k, size)
    ensures FirstPages(rows, size, k, postgres) == Some(rows[..Min(k * size, |rows|)])
  {
    if k == 0 {
    } else {
      NextOffset(k, size);
      SmallerFits(k, size);
      FirstPagesAre(rows, size, k - 1, postgres);
      FittingPage(rows, k, size, postgres);
      SliceExtends(rows, (k - 1) * size, size);
    }
  }

  lemma ScaleMonotone(a: int, b: int, s: int)
    requires a <= b && s >= 0
    ensures a * s <= b * s
  {
  }

  lemma FullPage<T>(rows: seq<T>, size: nat, p: nat, pages: nat, postgres: bool)
    requires size >= 1 && |rows| <= MAX_INT64 && PageCount(|rows|, size, pages) && 1 <= p < pages
    ensures ListPage(rows, p, size, postgres).Some? && |ListPage(rows, p, size, postgres).value| == size
  {
    ScaleMonotone(p, pages - 1, size);
    NextOffset(p, size);
    FittingPage(rows, p, size, postgres);
  }

  lemma LaterPage<T>(rows: seq<T>, size: nat, p: nat, pages: nat, postgres: bool)
    requires size >= 1 && PageCount(|rows|, size, pages) && p > pages && OffsetFits(p, size)
    ensures ListPage(rows, p, size, postgres) == Some([])
  {
    ScaleMonotone(pages, p - 1, size);
    assert pages * size >= |rows|;
    FittingPage(rows, p, size, postgres);
    assert Slice(rows, (p - 1) * size, size) == [];
  }

  /** Pages 1 to the page count show every row once, in order; each but the last is full, and those after it are
      empty as long as their offset fits. */
  lemma PagesCoverOnce<T>(rows: seq<T>, size: nat, pages: nat, postgres: bool)
    requires size >= 1 && |rows| <= MAX_INT64 && PageCount(|rows|, size, pages)
    ensures FirstPages(rows, size, pages, postgres) == Some(rows)
    ensures forall p :: 1 <= p < pages ==>
      ListPage(rows, p, size, postgres).Some? && |ListPage(rows, p, size, postgres).value| == size
    ensures forall p :: p > pages && OffsetFits(p, size) ==> ListPage(rows, p, size, postgres) == Some([])
  {
    assert pages == 1 ==> (pages - 1) * size == 0;
    FirstPagesAre(rows, size, pages, postgres);
    assert rows[..|rows|] == rows;
    forall p | 1 <= p < pages
      ensures ListPage(rows, p, size, postgres).Some? && |ListPage(rows, p, size, postgres).value| == size
    {
      FullPage(rows, size, p, pages, postgres);
    }
    forall p | p > pages && OffsetFits(p, size) ensures ListPage(rows, p, size, postgres) == Some([]) {
      LaterPage(rows, size, p, pages, postgres);
    }
  }
}
