/**
Results that come page by page: each reply carries rows and says where the next page is, if there is one. `follow`
turns that into the next request, or gives up on it.
*/
module Pages {
  import opened Wrappers

  /** A failed request or an undecodable body, or a page's rows with what leads to the next page, if there is one. */
  datatype Reply<T> = Failed(error: string) | Page(rows: seq<T>, next: Option<string>)

  type Server<!R, !T> = R -> Reply<T>

  type Follow<!R> = string -> Option<R>

  function NextRequest<R, T>(follow: Follow<R>, reply: Reply<T>): Option<R> {
    if reply.Page? && reply.next.Some? then follow(reply.next.value) else None
  }

  /** The chain of pages from request r on ends, well or badly, within k requests. */
  predicate Ends<R, T>(server: Server<R, T>, follow: Follow<R>, r: R, k: nat)
    decreases k
  {
    k > 0 && (NextRequest(follow, server(r)).Some? ==>
      Ends(server, follow, NextRequest(follow, server(r)).value, k - 1))
  }

  /** The replies along the chain, in order. */
  function Chain<R, T>(server: Server<R, T>, follow: Follow<R>, r: R, k: nat): (chain: seq<Reply<T>>)
    requires Ends(server, follow, r, k)
    ensures 0 < |chain| <= k
    decreases k
  {
    var next := NextRequest(follow, server(r));
    [server(r)] + (if next.Some? then Chain(server, follow, next.value, k - 1) else [])
  }

  /** How many rows the first i pages carry. */
  function RowsBefore<T>(pages: seq<Reply<T>>, i: nat): nat
    requires i <= |pages|
  {
    if i == 0 then 0 else RowsBefore(pages, i - 1) + if pages[i - 1].Page? then |pages[i - 1].rows| else 0
  }

  /** The rows are those of the pages, all of which succeeded: each page's in one stretch, in order, behind those of the
      pages before it, and nothing else. */
  ghost predicate HoldsPages<T>(rows: seq<T>, pages: seq<Reply<T>>) {
    |rows| == RowsBefore(pages, |pages|) && forall i :: 0 <= i < |pages| ==> HoldsPage(rows, pages, i)
  }

  ghost predicate HoldsPage<T>(rows: seq<T>, pages: seq<Reply<T>>, i: nat)
    requires i < |pages|
  {
    && pages[i].Page? && RowsBefore(pages, i) + |pages[i].rows| <= |rows|
    && forall n :: 0 <= n < |pages[i].rows| ==> rows[RowsBefore(pages, i) + n] == pages[i].rows[n]
  }

  lemma {:induction false} CountedAlike<T>(pages: seq<Reply<T>>, longer: seq<Reply<T>>, i: nat)
    requires pages <= longer && i <= |pages|
    ensures RowsBefore(pages, i) == RowsBefore(longer, i)
  {
    if i == 0 {
    } else {
      CountedAlike(pages, longer, i - 1);
    }
  }

  lemma OneMorePage<T>(rows: seq<T>, pages: seq<Reply<T>>, page: Reply<T>)
    requires HoldsPages(rows, pages) && page.Page?
    ensures HoldsPages(rows + page.rows, pages + [page])
  {
    var longer := pages + [page];
    CountedAlike(pages, longer, |pages|);
    forall i | 0 <= i < |longer| ensures HoldsPage(rows + page.rows, longer, i) {
      if i < |pages| {
        assert HoldsPage(rows, pages, i);
        CountedAlike(pages, longer, i);
      }
    }
  }

  /** One reply for each request: the first answers r, each other one the request that the reply before it leads to, and
      just the last leads to none. */
  ghost predicate IsChain<R, T>(server: Server<R, T>, follow: Follow<R>, r: R, chain: seq<Reply<T>>) {
    && chain != [] && chain[0] == server(r)
    && forall i :: 0 <= i < |chain| ==> FollowsOn(server, follow, chain, i)
  }

  ghost predicate FollowsOn<R, T>(server: Server<R, T>, follow: Follow<R>, chain: seq<Reply<T>>, i: nat)
    requires i < |chain|
  {
    var reply := chain[i];
    if i == |chain| - 1 then reply.Page? && reply.next.Some? ==> follow(reply.next.value).None?
    else
      && reply.Page? && reply.next.Some? && follow(reply.next.value).Some?
      && chain[i + 1] == server(follow(reply.next.value).value)
  }

  /** The replies along the chain are such, so a failure can only come last. */
  lemma {:induction false} ChainFollows<R, T>(server: Server<R, T>, follow: Follow<R>, r: R, k: nat)
    requires Ends(server, follow, r, k)
    ensures IsChain(server, follow, r, Chain(server, follow, r, k))
    decreases k
  {
    var next, chain := NextRequest(follow, server(r)), Chain(server, follow, r, k);
    if next.None? {
    } else {
      ChainFollows(server, follow, next.value, k - 1);
      forall i | 0 < i < |chain| ensures FollowsOn(server, follow, chain, i) {
        assert FollowsOn(server, follow, chain[1..], i - 1);
      }
    }
  }

  lemma Regrouped<T>(x: seq<T>, y: T, z: seq<T>)
    ensures x + ([y] + z) == x + [y] + z
    ensures z == [] ==> x + ([y] + z) == x + [y]
  {
  }

  /** The loop: one request a page; all rows in order, or nothing when any request fails. */
  method FetchPages<R, T>(server: Server<R, T>, follow: Follow<R>, first: R, ghost k: nat)
    returns (res: Result<seq<T>, string>, requests: nat)
    requires Ends(server, follow, first, k)
    ensures var chain := Chain(server, follow, first, k);
      IsChain(server, follow, first, chain) && requests == |chain| &&
      if res.Ok? then HoldsPages(res.value, chain) else chain[|chain| - 1] == Failed(res.error)
  {
    ChainFollows(server, follow, first, k);
    var all: seq<T> := [];
    var r := first;
    requests := 0;
    ghost var left, chain, seen := k, Chain(server, follow, first, k), [];
    while true
      invariant Ends(server, follow, r, left)
      invariant chain == seen + Chain(server, follow, r, left) && requests == |seen|
      invariant HoldsPages(all, seen)
      decreases left
    {
      var reply := server(r);
      ghost var rest := Chain(server, follow, r, left)[1..];
      Regrouped(seen, reply, rest);
      requests := requests + 1;
      if reply.Failed? {
        return Err(reply.error), requests;
      }
      OneMorePage(all, seen, reply);
      all := all + reply.rows;
      seen := seen + [reply];
      var next := NextRequest(follow, reply);
      if next.None? {
        assert chain == seen;
        break;
      }
      left := left - 1;
      r := next.value;
    }
    res := Ok(all);
  }
}
