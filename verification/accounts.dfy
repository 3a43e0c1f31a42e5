/** Listing a token's ad accounts: the next page is given as a whole URL, from which path and query are cut out. */
module Accounts {
  import opened Wrappers
  import opened Pages

  const BASE_URL := "https://graph.facebook.com"

  datatype Request<P> = Request(path: string, params: P)

  function Prefix(apiVersion: string): string {
    BASE_URL + "/" + apiVersion + "/"
  }

  lemma PrefixIs(apiVersion: string)
    ensures Prefix(apiVersion) == "https://graph.facebook.com/" + apiVersion + "/"
  {
    assert BASE_URL + "/" == "https://graph.facebook.com/";
  }

  /** The request in what is left of a URL: its path up to the first question mark, and the query after it; `parseQuery`
      is the standard query-string parser, `noParams` the empty query. */
  function ParsedRest<P>(rest: string, parseQuery: string -> Option<P>, noParams: P): Option<Request<P>> {
    var idx := FirstIndex(rest, '?');
    if idx == |rest| then Some(Request(rest, noParams))
    else if parseQuery(rest[idx + 1..]).None? then None
    else Some(Request(rest[..idx], parseQuery(rest[idx + 1..]).value))
  }

  /** The request a "next" URL stands for. */
  function ParsedNext<P>(
      nextUrl: string, apiVersion: string, parseQuery: string -> Option<P>, noParams: P): Option<Request<P>>
  {
    if |nextUrl| <= |Prefix(apiVersion)| then None
    else ParsedRest(nextUrl[|Prefix(apiVersion)|..], parseQuery, noParams)
  }

  function Following<P>(apiVersion: string, parseQuery: string -> Option<P>, noParams: P): Follow<Request<P>> {
    url => ParsedNext(url, apiVersion, parseQuery, noParams)
  }

  /** What follows the prefix is a path without parameters, or a path up to the first question mark and then a query,
      which must parse. */
  ghost predicate Cuts<P>(rest: string, parseQuery: string -> Option<P>, noParams: P, next: Option<Request<P>>) {
    if '?' !in rest then next == Some(Request(rest, noParams))
    else exists i :: 0 <= i < |rest| && CutsAt(rest, i, parseQuery, next)
  }

  ghost predicate CutsAt<P>(rest: string, i: nat, parseQuery: string -> Option<P>, next: Option<Request<P>>)
    requires i < |rest|
  {
    var params := parseQuery(rest[i + 1..]);
    && rest[i] == '?' && '?' !in rest[..i]
    && next == if params.None? then None else Some(Request(rest[..i], params.value))
  }

  method ParseNextPage<P>(
      nextUrl: string, apiVersion: string, parseQuery: string -> Option<P>, noParams: P)
    returns (next: Option<Request<P>>)
    ensures next == ParsedNext(nextUrl, apiVersion, parseQuery, noParams)
    ensures |nextUrl| <= 28 + |apiVersion| ==> next.None?
    ensures |nextUrl| > 28 + |apiVersion| ==> Cuts(nextUrl[28 + |apiVersion|..], parseQuery, noParams, next)
  {
    var prefix := BASE_URL + "/" + apiVersion + "/";
    if |nextUrl| <= |prefix| {
      return None;
    }
    var rest := nextUrl[|prefix|..];
    var idx := -1;
    for i := 0 to |rest|
      invariant idx == -1 && '?' !in rest[..i]
    {
      if rest[i] == '?' {
        idx := i;
        break;
      }
    }
    FirstIndexIs(rest, '?', if idx < 0 then |rest| else idx);
    assert rest[..|rest|] == rest;
    if idx < 0 {
      return Some(Request(rest, noParams));
    }
    var params := parseQuery(rest[idx + 1..]);
    if params.None? {
      assert CutsAt(rest, idx, parseQuery, None);
      return None;
    }
    next := Some(Request(rest[..idx], params.value));
    assert CutsAt(rest, idx, parseQuery, next);
  }

  /** A URL of the form the API gives is cut at its first question mark into exactly its path and its query. */
  lemma WellFormedNext<P>(apiVersion: string, path: string, query: string, parseQuery: string -> Option<P>, noParams: P)
    requires '?' !in path
    ensures var url := "https://graph.facebook.com/" + apiVersion + "/" + path;
      ParsedNext(url + "?" + query, apiVersion, parseQuery, noParams)
         == if parseQuery(query).Some? then Some(Request(path, parseQuery(query).value)) else None
    ensures path != "" ==>
      ParsedNext("https://graph.facebook.com/" + apiVersion + "/" + path, apiVersion, parseQuery, noParams)
        == Some(Request(path, noParams))
  {
    PrefixIs(apiVersion);
    var url := Prefix(apiVersion) + path + "?" + query;
    var rest := url[|Prefix(apiVersion)|..];
    assert rest == path + "?" + query;
    assert rest[..|path|] == path && rest[|path| + 1..] == query;
    FirstIndexIs(rest, '?', |path|);
    assert (Prefix(apiVersion) + path)[|Prefix(apiVersion)|..] == path;
    assert path[..|path|] == path;
    FirstIndexIs(path, '?', |path|);
  }

  /** Where the client's prefix ends in a URL of another version: at or before the path's end, or inside the query. */
  lemma CutUrl(apiVersion: string, version: string, path: string, query: string)
    requires |Prefix(apiVersion)| < |Prefix(version) + path + "?" + query|
    ensures var rest, head := (Prefix(version) + path + "?" + query)[|Prefix(apiVersion)|..], Prefix(version) + path;
      if |apiVersion| <= |version| + |path| then rest == head[|Prefix(apiVersion)|..] + "?" + query
      else rest == query[|apiVersion| - |version| - |path| - 1..]
  {
  }

  /** The prefix is cut off by its length and never compared. So a URL that names another version gives back its own
      path and query exactly when that version's name is as long as the client's, or the client's is so much longer that
      the cut falls inside the query, and what it leaves there happens to read as that path and query. */
  lemma OtherVersion<P>(
      apiVersion: string, version: string, path: string, query: string, parseQuery: string -> Option<P>, noParams: P)
    requires '?' !in version && '?' !in path && path != "" && parseQuery(query).Some?
    ensures var own, cut := Some(Request(path, parseQuery(query).value)), |apiVersion| - |version| - |path| - 1;
      ParsedNext(Prefix(version) + path + "?" + query, apiVersion, parseQuery, noParams) == own
      <==> (|version| == |apiVersion| || (0 <= cut < |query| && ParsedRest(query[cut..], parseQuery, noParams) == own))
  {
    var url, head := Prefix(version) + path + "?" + query, Prefix(version) + path;
    if |Prefix(apiVersion)| < |url| {
      CutUrl(apiVersion, version, path, query);
      if |apiVersion| <= |version| + |path| {
        var before := head[|Prefix(apiVersion)|..];
        assert '?' !in head && '?' !in before;
        FirstAt(before, '?', query);
        SplitAround(before, '?', query);
        assert |before| == |path| + |version| - |apiVersion|;
        assert |version| == |apiVersion| ==> before == path;
      }
    }
  }

  /** With the cut before the query, or a query that holds no question mark and carries parameters, length alone
      decides. */
  lemma OtherVersionByLength<P>(
      apiVersion: string, version: string, path: string, query: string, parseQuery: string -> Option<P>, noParams: P)
    requires '?' !in version && '?' !in path && path != "" && parseQuery(query).Some?
    requires |apiVersion| <= |version| + |path| || ('?' !in query && parseQuery(query) != Some(noParams))
    ensures ParsedNext(Prefix(version) + path + "?" + query, apiVersion, parseQuery, noParams)
        == Some(Request(path, parseQuery(query).value))
      <==> |version| == |apiVersion|
  {
    OtherVersion(apiVersion, version, path, query, parseQuery, noParams);
    var cut := |apiVersion| - |version| - |path| - 1;
    if 0 <= cut < |query| {
      FirstIndexIs(query[cut..], '?', |query| - cut);
    }
  }

  /** Such an input: a next URL of version v9.0 sends a client of version v20.0 to a path that does not exist. */
  lemma ShorterVersion<P>(parseQuery: string -> Option<P>, noParams: P)
    ensures ParsedNext("https://graph.facebook.com/v9.0/me/adaccounts", "v20.0", parseQuery, noParams)
      == Some(Request("e/adaccounts", noParams))
  {
    assert |Prefix("v20.0")| == 33;
    assert "https://graph.facebook.com/v9.0/me/adaccounts"[33..] == "e/adaccounts";
    FirstIndexIs("e/adaccounts", '?', 12);
  }

  /** GetAdAccounts: a next URL that cannot be parsed ends the listing with what has been read so far. */
  method GetAdAccounts<P, T>(
      server: Server<Request<P>, T>, first: Request<P>, apiVersion: string, parseQuery: string -> Option<P>,
      noParams: P, ghost k: nat)
    returns (res: Result<seq<T>, string>, requests: nat)
    requires Ends(server, Following(apiVersion, parseQuery, noParams), first, k)
    ensures var chain := Chain(server, Following(apiVersion, parseQuery, noParams), first, k);
      IsChain(server, Following(apiVersion, parseQuery, noParams), first, chain) && requests == |chain| &&
      if res.Ok? then HoldsPages(res.value, chain) else chain[|chain| - 1] == Failed(res.error)
  {
    res, requests := FetchPages(server, Following(apiVersion, parseQuery, noParams), first, k);
  }

  /** The request made for a next URL asks for the very page the URL names: put together again, with the client's own
      version, path and query are the URL. */
  predicate AsksFor<P(==)>(
      apiVersion: string, parseQuery: string -> Option<P>, noParams: P, url: string, r: Request<P>)
  {
    var start := "https://graph.facebook.com/" + apiVersion + "/" + r.path;
    && start <= url && '?' !in r.path
    && (if url == start then r.params == noParams
        else url[|start|] == '?' && parseQuery(url[|start| + 1..]) == Some(r.params))
  }

  /** For a URL that parses, that is so exactly when it begins with the client's own prefix. */
  lemma AsksForNamedPage<P>(apiVersion: string, parseQuery: string -> Option<P>, noParams: P, url: string)
    requires ParsedNext(url, apiVersion, parseQuery, noParams).Some?
    ensures AsksFor(apiVersion, parseQuery, noParams, url, ParsedNext(url, apiVersion, parseQuery, noParams).value)
      <==> "https://graph.facebook.com/" + apiVersion + "/" <= url
  {
    PrefixIs(apiVersion);
    var prefix, r := Prefix(apiVersion), ParsedNext(url, apiVersion, parseQuery, noParams).value;
    var rest := url[|prefix|..];
    var idx := FirstIndex(rest, '?');
    if prefix <= url {
      assert r.path == rest[..idx] by {
        assert rest[..|rest|] == rest;
      }
      assert url[..|prefix| + idx] == prefix + r.path;
      assert idx < |rest| ==> url[|prefix| + idx + 1..] == rest[idx + 1..];
    }
  }

  /** A next URL that is followed to the page it names. */
  predicate Followable<P>(apiVersion: string, parseQuery: string -> Option<P>, noParams: P, url: string) {
    "https://graph.facebook.com/" + apiVersion + "/" <= url && ParsedNext(url, apiVersion, parseQuery, noParams).Some?
  }

  /** The listing is the whole of it: each page is the answer to a request for the page the one before names, and the
      last names none. */
  predicate Whole<P(==), T(==)>(
      server: Server<Request<P>, T>, apiVersion: string, parseQuery: string -> Option<P>, noParams: P,
      chain: seq<Reply<T>>)
  {
    && chain != [] && chain[|chain| - 1].Page? && chain[|chain| - 1].next.None?
    && forall i :: 0 <= i < |chain| - 1 ==> LeadsOn(server, apiVersion, parseQuery, noParams, chain, i)
  }

  predicate LeadsOn<P(==), T(==)>(
      server: Server<Request<P>, T>, apiVersion: string, parseQuery: string -> Option<P>, noParams: P,
      chain: seq<Reply<T>>, i: int)
    requires 0 <= i < |chain| - 1
  {
    chain[i].Page? && chain[i].next.Some?
      && Leads(server, apiVersion, parseQuery, noParams, chain[i].next.value, chain[i + 1])
  }

  predicate Leads<P(==), T(==)>(
      server: Server<Request<P>, T>, apiVersion: string, parseQuery: string -> Option<P>, noParams: P, url: string,
      page: Reply<T>)
  {
    var r := ParsedNext(url, apiVersion, parseQuery, noParams);
    r.Some? && AsksFor(apiVersion, parseQuery, noParams, url, r.value) && page == server(r.value)
  }

  /** The page's next URL, if it has one, is followable. */
  predicate NextFollowable<P, T>(apiVersion: string, parseQuery: string -> Option<P>, noParams: P, page: Reply<T>) {
    page.Page? && page.next.Some? ==> Followable(apiVersion, parseQuery, noParams, page.next.value)
  }

  /** The last page names no page that could be followed. */
  lemma LastPageEnds<P, T>(
      server: Server<Request<P>, T>, first: Request<P>, apiVersion: string, parseQuery: string -> Option<P>,
      noParams: P, k: nat)
    requires Ends(server, Following(apiVersion, parseQuery, noParams), first, k)
    ensures var chain := Chain(server, Following(apiVersion, parseQuery, noParams), first, k);
      var last := chain[|chain| - 1];
      last.Page? ==> (last.next.None? <==> NextFollowable(apiVersion, parseQuery, noParams, last))
  {
    var follow := Following(apiVersion, parseQuery, noParams);
    var chain := Chain(server, follow, first, k);
    ChainFollows(server, follow, first, k);
    assert FollowsOn(server, follow, chain, |chain| - 1);
  }

  /** Any other page leads to the page it names exactly when its next URL is followable. */
  lemma LinksAreFollowable<P, T>(
      server: Server<Request<P>, T>, first: Request<P>, apiVersion: string, parseQuery: string -> Option<P>,
      noParams: P, k: nat, i: nat)
    requires Ends(server, Following(apiVersion, parseQuery, noParams), first, k)
    requires i < |Chain(server, Following(apiVersion, parseQuery, noParams), first, k)| - 1
    ensures var chain := Chain(server, Following(apiVersion, parseQuery, noParams), first, k);
      LeadsOn(server, apiVersion, parseQuery, noParams, chain, i)
      <==> NextFollowable(apiVersion, parseQuery, noParams, chain[i])
  {
    var follow := Following(apiVersion, parseQuery, noParams);
    var chain := Chain(server, follow, first, k);
    ChainFollows(server, follow, first, k);
    assert FollowsOn(server, follow, chain, i);
    assert follow(chain[i].next.value) == ParsedNext(chain[i].next.value, apiVersion, parseQuery, noParams);
    AsksForNamedPage(apiVersion, parseQuery, noParams, chain[i].next.value);
  }

  lemma WholeIff<P, T>(
      server: Server<Request<P>, T>, apiVersion: string, parseQuery: string -> Option<P>, noParams: P,
      chain: seq<Reply<T>>)
    requires chain != [] && chain[|chain| - 1].Page?
    requires chain[|chain| - 1].next.None? <==> NextFollowable(apiVersion, parseQuery, noParams, chain[|chain| - 1])
    requires forall i {:trigger LeadsOn(server, apiVersion, parseQuery, noParams, chain, i)} :: 0 <= i < |chain| - 1 ==>
      LeadsOn(server, apiVersion, parseQuery, noParams, chain, i)
      == NextFollowable(apiVersion, parseQuery, noParams, chain[i])
    ensures Whole(server, apiVersion, parseQuery, noParams, chain)
      <==> forall i :: 0 <= i < |chain| ==> NextFollowable(apiVersion, parseQuery, noParams, chain[i])
  {
    if forall i :: 0 <= i < |chain| ==> NextFollowable(apiVersion, parseQuery, noParams, chain[i]) {
      forall i | 0 <= i < |chain| - 1 ensures LeadsOn(server, apiVersion, parseQuery, noParams, chain, i) {
        assert NextFollowable(apiVersion, parseQuery, noParams, chain[i]);
      }
    }
    if Whole(server, apiVersion, parseQuery, noParams, chain) {
      forall i | 0 <= i < |chain| ensures NextFollowable(apiVersion, parseQuery, noParams, chain[i]) {
        if i < |chain| - 1 {
          assert LeadsOn(server, apiVersion, parseQuery, noParams, chain, i);
        }
      }
    }
  }

  /** A returned listing is whole exactly when every next URL met begins with the client's own prefix and parses. */
  lemma ListingIsWhole<P, T>(
      server: Server<Request<P>, T>, first: Request<P>, apiVersion: string, parseQuery: string -> Option<P>,
      noParams: P, k: nat)
    requires Ends(server, Following(apiVersion, parseQuery, noParams), first, k)
    ensures var chain := Chain(server, Following(apiVersion, parseQuery, noParams), first, k);
      chain[|chain| - 1].Page? ==>
        (Whole(server, apiVersion, parseQuery, noParams, chain)
         <==> forall i :: 0 <= i < |chain| ==> NextFollowable(apiVersion, parseQuery, noParams, chain[i]))
  {
    var chain := Chain(server, Following(apiVersion, parseQuery, noParams), first, k);
    if chain[|chain| - 1].Page? {
      forall i | 0 <= i < |chain| - 1
        ensures LeadsOn(server, apiVersion, parseQuery, noParams, chain, i)
          <==> NextFollowable(apiVersion, parseQuery, noParams, chain[i])
      {
        LinksAreFollowable(server, first, apiVersion, parseQuery, noParams, k, i);
      }
      LastPageEnds(server, first, apiVersion, parseQuery, noParams, k);
      WholeIff(server, apiVersion, parseQuery, noParams, chain);
    }
  }
}
