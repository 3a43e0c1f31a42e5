/** ListSpendRaw: conditions, placeholders and arguments put together side by side from a filter. */
module SpendQuery {
  import opened Wrappers
  import opened Decimal
  import opened Rebind
  import opened Paging

  datatype Filter = Filter(date: string, dateFrom: string, dateTo: string, accountId: string, page: int, pageSize: int)

  datatype Arg = Text(s: string) | Number(n: int)

  function Clamped(f: Filter): Filter {
    f.(page := ClampPage(f.page), pageSize := ClampSize(f.pageSize))
  }

  /** What a placeholder is for. */
  datatype Slot = DateFrom | DateTo | OneDate | AccountIs | AccountLike | Limit | Offset

  datatype Piece = Sql(text: string) | Hole(slot: Slot)

  function ArgFor(f: Filter, slot: Slot): Arg {
    match slot
    case DateFrom => Text(f.dateFrom)
    case DateTo => Text(f.dateTo)
    case OneDate => Text(f.date)
    case AccountIs => Text(f.accountId)
    case AccountLike => Text("%" + f.accountId + "%")
    case Limit => Number(f.pageSize)
    case Offset => Number(OffsetOf(ClampPage(f.page), ClampSize(f.pageSize)))
  }

  function PieceText(p: Piece): string {
    if p.Sql? then p.text else "?"
  }

  function PieceArgs(p: Piece, f: Filter): seq<Arg> {
    if p.Sql? then [] else [ArgFor(f, p.slot)]
  }

  function Render(ps: seq<Piece>): string {
    if ps == [] then "" else PieceText(ps[0]) + Render(ps[1..])
  }

  function ArgsOf(ps: seq<Piece>, f: Filter): seq<Arg> {
    if ps == [] then [] else PieceArgs(ps[0], f) + ArgsOf(ps[1..], f)
  }

  // ----- What a query with its arguments asks for -----

  datatype Atom = Letter(c: char) | Given(arg: Arg)

  /** Every numbered placeholder replaced by that argument; nothing when a number has no argument. */
  function Resolve(ts: seq<Token>, args: seq<Arg>): Option<seq<Atom>> {
    if ts == [] then Some([])
    else if ts[0].Param? && !(1 <= ts[0].k <= |args|) then None
    else
      var rest := Resolve(ts[1..], args);
      if rest.None? then None
      else Some([if ts[0].Param? then Given(args[ts[0].k - 1]) else Letter(ts[0].c)] + rest.value)
  }

  /** How each driver reads a query: numbered by dollar signs, or question marks in order. */
  function Reads(postgres: bool, q: string): seq<Token> {
    if postgres then DollarTokens(q) else MarkTokens(q, 0)
  }

  function Letters(s: string): seq<Atom> {
    seq(|s|, i requires 0 <= i < |s| => Letter(s[i]))
  }

  /** The text with each place holding what its slot is for. */
  function Intended(ps: seq<Piece>, f: Filter): seq<Atom> {
    if ps == [] then []
    else (if ps[0].Sql? then Letters(ps[0].text) else [Given(ArgFor(f, ps[0].slot))]) + Intended(ps[1..], f)
  }

  /** Fixed SQL: no placeholder characters. */
  predicate Plain(s: string) {
    '?' !in s && '$' !in s
  }

  /** Fixed text, and no place is followed by a word. */
  predicate Safe(ps: seq<Piece>) {
    && (forall p <- ps :: p.Sql? ==> Plain(p.text))
    && (forall i :: 0 <= i < |ps| - 1 && ps[i].Hole? ==> ps[i + 1].Sql? && Opens(ps[i + 1].text))
  }

  /** Can follow a placeholder. */
  predicate Opens(s: string) {
    s != "" && !IsWordChar(s[0])
  }

  lemma {:induction false} MarksOfText(t: string, q: string, n: nat)
    requires '?' !in t
    ensures MarkTokens(t + q, n) == seq(|t|, i requires 0 <= i < |t| => Char(t[i])) + MarkTokens(q, n)
  {
    if t == "" {
      assert t + q == q;
    } else {
      assert (t + q)[1..] == t[1..] + q;
      MarksOfText(t[1..], q, n);
    }
  }

  lemma {:induction false} ResolveText(t: string, ts: seq<Token>, args: seq<Arg>)
    requires Resolve(ts, args).Some?
    ensures Resolve(seq(|t|, i requires 0 <= i < |t| => Char(t[i])) + ts, args)
      == Some(Letters(t) + Resolve(ts, args).value)
  {
    var chars := seq(|t|, i requires 0 <= i < |t| => Char(t[i]));
    if t == "" {
      assert chars + ts == ts && Letters(t) + Resolve(ts, args).value == Resolve(ts, args).value;
    } else {
      ResolveText(t[1..], ts, args);
      assert (chars + ts)[1..] == seq(|t| - 1, i requires 0 <= i < |t| - 1 => Char(t[1..][i])) + ts;
      assert [Letter(t[0])] + (Letters(t[1..]) + Resolve(ts, args).value) == Letters(t) + Resolve(ts, args).value;
    }
  }

  lemma MarkOfHole(q: string, n: nat)
    ensures MarkTokens("?" + q, n) == [Param(n + 1)] + MarkTokens(q, n + 1)
  {
    assert ("?" + q)[1..] == q;
  }

  lemma ResolveHole(k: nat, ts: seq<Token>, args: seq<Arg>)
    requires 1 <= k <= |args| && Resolve(ts, args).Some?
    ensures Resolve([Param(k)] + ts, args) == Some([Given(args[k - 1])] + Resolve(ts, args).value)
  {
    assert ([Param(k)] + ts)[1..] == ts;
  }

  lemma ArgsStep(ps: seq<Piece>, f: Filter, before: seq<Arg>)
    requires ps != []
    ensures before + ArgsOf(ps, f) == before + PieceArgs(ps[0], f) + ArgsOf(ps[1..], f)
  {
  }

  /** The k-th question mark meets the k-th argument, wherever the pieces stand. */
  lemma {:induction false} MarksMeetArguments(ps: seq<Piece>, f: Filter, before: seq<Arg>)
    requires forall p <- ps :: p.Sql? ==> '?' !in p.text
    ensures Resolve(MarkTokens(Render(ps), |before|), before + ArgsOf(ps, f)) == Some(Intended(ps, f))
  {
    if ps == [] {
    } else {
      var rest, args := ps[1..], before + ArgsOf(ps, f);
      ArgsStep(ps, f, before);
      MarksMeetArguments(rest, f, before + PieceArgs(ps[0], f));
      if ps[0].Sql? {
        assert before + [] == before;
        MarksOfText(ps[0].text, Render(rest), |before|);
        ResolveText(ps[0].text, MarkTokens(Render(rest), |before|), args);
      } else {
        MarkOfHole(Render(rest), |before|);
        ResolveHole(|before| + 1, MarkTokens(Render(rest), |before| + 1), args);
      }
    }
  }

  lemma {:induction false} SafeText(ps: seq<Piece>)
    requires Safe(ps)
    ensures '$' !in Render(ps) && Detached(Render(ps))
  {
    if ps == [] {
    } else {
      var head, tail := PieceText(ps[0]), Render(ps[1..]);
      assert Safe(ps[1..]) by {
        assert forall i :: 0 <= i < |ps| - 1 ==> ps[1..][i] == ps[i + 1];
      }
      SafeText(ps[1..]);
      if ps[0].Hole? && |ps| > 1 {
        assert Opens(ps[1].text) && tail[0] == ps[1].text[0];
      }
      assert forall i :: |head| <= i < |head| + |tail| ==> (head + tail)[i] == tail[i - |head|];
    }
  }

  /** Read by that driver with those arguments, the query is the text with every place holding what its slot is for. */
  predicate Asks(postgres: bool, q: string, args: seq<Arg>, ps: seq<Piece>, f: Filter) {
    Resolve(Reads(postgres, q), args) == Some(Intended(ps, f))
  }

  function Bound(q: string, postgres: bool): string {
    if postgres then Rebound(q, 0) else q
  }

  /** On either driver, the query with its arguments asks for what each slot is for. */
  lemma EverySlotGetsItsOwn(ps: seq<Piece>, f: Filter, postgres: bool)
    requires Safe(ps)
    ensures Asks(postgres, Bound(Render(ps), postgres), ArgsOf(ps, f), ps, f)
  {
    MarksMeetArguments(ps, f, []);
    assert [] + ArgsOf(ps, f) == ArgsOf(ps, f);
    SafeText(ps);
    assert Separated(Render(ps));
    RebindKeepsMeaning(Render(ps), 0);
  }

  lemma SafeJoin(x: seq<Piece>, y: seq<Piece>)
    requires Safe(x) && Safe(y) && CanFollow(y)
    ensures Safe(x + y)
  {
  }

  lemma TextIsSafe(t: string, rest: seq<Piece>)
    requires Plain(t) && Safe(rest)
    ensures Safe([Sql(t)] + rest)
  {
  }

  predicate CanFollow(ps: seq<Piece>) {
    ps == [] || (ps[0].Sql? && Opens(ps[0].text))
  }

  lemma {:induction false} RenderSplit(x: seq<Piece>, y: seq<Piece>)
    ensures Render(x + y) == Render(x) + Render(y)
  {
    if x == [] {
      assert x + y == y;
    } else {
      assert (x + y)[1..] == x[1..] + y;
      RenderSplit(x[1..], y);
    }
  }

  lemma {:induction false} ArgsSplit(x: seq<Piece>, y: seq<Piece>, f: Filter)
    ensures ArgsOf(x + y, f) == ArgsOf(x, f) + ArgsOf(y, f)
  {
    if x == [] {
      assert x + y == y;
    } else {
      assert (x + y)[1..] == x[1..] + y;
      ArgsSplit(x[1..], y, f);
    }
  }

  // ----- The WHERE clause -----

  const BETWEEN := "sr.date BETWEEN "
  const AND := " AND "
  const DATE_IS := "sr.date = "
  const ACCOUNT_IS := "(sr.account_id = "
  const OR_NAME_LIKE := " OR LOWER(a.name) LIKE LOWER("
  const CLOSE := "))"
  const WHERE := "WHERE "

  /** A text, a place, and what follows. */
  function Place(t: string, slot: Slot, rest: seq<Piece>): seq<Piece> {
    [Sql(t), Hole(slot)] + rest
  }

  lemma PlaceRendered(t: string, slot: Slot, rest: seq<Piece>)
    ensures Render(Place(t, slot, rest)) == t + "?" + Render(rest)
  {
    var tail: seq<Piece> := [Hole(slot)] + rest;
    assert tail[1..] == rest;
    assert Place(t, slot, rest)[1..] == tail;
    assert t + ("?" + Render(rest)) == t + "?" + Render(rest);
  }

  lemma PlaceArgs(t: string, slot: Slot, rest: seq<Piece>, f: Filter)
    ensures ArgsOf(Place(t, slot, rest), f) == [ArgFor(f, slot)] + ArgsOf(rest, f)
  {
    var tail: seq<Piece> := [Hole(slot)] + rest;
    assert tail[1..] == rest;
    assert Place(t, slot, rest)[1..] == tail;
  }

  lemma TextRendered(t: string, rest: seq<Piece>, f: Filter)
    ensures Render([Sql(t)] + rest) == t + Render(rest) && ArgsOf([Sql(t)] + rest, f) == ArgsOf(rest, f)
  {
    assert ([Sql(t)] + rest)[1..] == rest;
  }

  lemma TwoPlacesRendered(t: string, x: Slot, u: string, y: Slot, close: string)
    ensures Render(Place(t, x, Place(u, y, [Sql(close)]))) == t + "?" + u + "?" + close
  {
    PlaceRendered(t, x, Place(u, y, [Sql(close)]));
    PlaceRendered(u, y, [Sql(close)]);
    assert Render([Sql(close)][1..]) == "" && close + "" == close;
    assert t + "?" + (u + "?" + close) == t + "?" + u + "?" + close;
  }

  lemma TwoPlacesArgs(t: string, x: Slot, u: string, y: Slot, close: string, f: Filter)
    ensures ArgsOf(Place(t, x, Place(u, y, [Sql(close)])), f) == [ArgFor(f, x), ArgFor(f, y)]
  {
    PlaceArgs(t, x, Place(u, y, [Sql(close)]), f);
    PlaceArgs(u, y, [Sql(close)], f);
    assert ArgsOf([Sql(close)][1..], f) == [];
  }

  lemma PlaceIsSafe(t: string, slot: Slot, rest: seq<Piece>)
    requires Plain(t) && Safe(rest) && CanFollow(rest)
    ensures Safe(Place(t, slot, rest))
  {
  }

  function BetweenPieces(): seq<Piece> {
    Place(BETWEEN, DateFrom, Place(AND, DateTo, []))
  }

  function DateIsPieces(): seq<Piece> {
    Place(DATE_IS, OneDate, [])
  }

  function AccountPieces(): seq<Piece> {
    Place(ACCOUNT_IS, AccountIs, Place(OR_NAME_LIKE, AccountLike, [Sql(CLOSE)]))
  }

  /** The conditions a filter asks for: a range wins over a single date, and the account condition is separate. */
  function Conditions(f: Filter): seq<seq<Piece>> {
    (if f.dateFrom != "" && f.dateTo != "" then [BetweenPieces()] else if f.date != "" then [DateIsPieces()] else [])
    + (if f.accountId != "" then [AccountPieces()] else [])
  }

  function JoinPieces(conds: seq<seq<Piece>>): seq<Piece> {
    if conds == [] then [] else if |conds| == 1 then conds[0] else conds[0] + ([Sql(AND)] + JoinPieces(conds[1..]))
  }

  function WherePieces(f: Filter): seq<Piece> {
    if Conditions(f) == [] then [] else [Sql(WHERE)] + JoinPieces(Conditions(f))
  }

  /** strings.Join */
  function Join(parts: seq<string>, sep: string): string {
    if parts == [] then "" else if |parts| == 1 then parts[0] else parts[0] + sep + Join(parts[1..], sep)
  }

  function RenderAll(conds: seq<seq<Piece>>): seq<string> {
    seq(|conds|, i requires 0 <= i < |conds| => Render(conds[i]))
  }

  function AllArgs(conds: seq<seq<Piece>>, f: Filter): seq<Arg> {
    if conds == [] then [] else ArgsOf(conds[0], f) + AllArgs(conds[1..], f)
  }

  lemma {:induction false} JoinRendered(conds: seq<seq<Piece>>, f: Filter)
    ensures Render(JoinPieces(conds)) == Join(RenderAll(conds), AND)
    ensures ArgsOf(JoinPieces(conds), f) == AllArgs(conds, f)
  {
    if |conds| > 1 {
      var rest := JoinPieces(conds[1..]);
      JoinRendered(conds[1..], f);
      assert RenderAll(conds)[1..] == RenderAll(conds[1..]);
      RenderSplit(conds[0], [Sql(AND)] + rest);
      ArgsSplit(conds[0], [Sql(AND)] + rest, f);
      TextRendered(AND, rest, f);
      assert Render(conds[0]) + (AND + Render(rest)) == Render(conds[0]) + AND + Render(rest);
    } else if |conds| == 1 {
      assert AllArgs(conds[1..], f) == [];
    }
  }

  lemma {:induction false} AllArgsSnoc(conds: seq<seq<Piece>>, cond: seq<Piece>, f: Filter)
    ensures AllArgs(conds + [cond], f) == AllArgs(conds, f) + ArgsOf(cond, f)
  {
    if conds == [] {
      assert AllArgs([cond][1..], f) == [];
    } else {
      assert (conds + [cond])[1..] == conds[1..] + [cond];
      AllArgsSnoc(conds[1..], cond, f);
    }
  }

  lemma BetweenText()
    ensures BETWEEN + "?" + AND + "?" == "sr.date BETWEEN ? AND ?"
  {
  }

  lemma DateIsText()
    ensures DATE_IS + "?" == "sr.date = ?"
  {
  }

  lemma AccountTextStarts()
    ensures ACCOUNT_IS + "?" + OR_NAME_LIKE == "(sr.account_id = ? OR LOWER(a.name) LIKE LOWER("
  {
    assert ACCOUNT_IS + "?" == "(sr.account_id = ?";
  }

  lemma AccountText()
    ensures ACCOUNT_IS + "?" + OR_NAME_LIKE + "?" + CLOSE == "(sr.account_id = ? OR LOWER(a.name) LIKE LOWER(?))"
  {
    AccountTextStarts();
    assert "?" + CLOSE == "?))";
    assert "(sr.account_id = ? OR LOWER(a.name) LIKE LOWER(" + "?))"
      == "(sr.account_id = ? OR LOWER(a.name) LIKE LOWER(?))";
    Regroup(ACCOUNT_IS + "?" + OR_NAME_LIKE, "?", CLOSE);
  }

  lemma BetweenRendered(f: Filter)
    ensures Render(BetweenPieces()) == "sr.date BETWEEN ? AND ?"
    ensures ArgsOf(BetweenPieces(), f) == [Text(f.dateFrom), Text(f.dateTo)]
  {
    PlaceRendered(BETWEEN, DateFrom, Place(AND, DateTo, []));
    PlaceRendered(AND, DateTo, []);
    PlaceArgs(BETWEEN, DateFrom, Place(AND, DateTo, []), f);
    PlaceArgs(AND, DateTo, [], f);
    assert BETWEEN + "?" + (AND + "?" + "") == BETWEEN + "?" + AND + "?";
    BetweenText();
  }

  lemma DateIsRendered(f: Filter)
    ensures Render(DateIsPieces()) == "sr.date = ?" && ArgsOf(DateIsPieces(), f) == [Text(f.date)]
  {
    PlaceRendered(DATE_IS, OneDate, []);
    PlaceArgs(DATE_IS, OneDate, [], f);
    assert DATE_IS + "?" + "" == DATE_IS + "?";
    DateIsText();
  }

  lemma AccountRendered(f: Filter)
    ensures Render(AccountPieces()) == "(sr.account_id = ? OR LOWER(a.name) LIKE LOWER(?))"
    ensures ArgsOf(AccountPieces(), f) == [Text(f.accountId), Text("%" + f.accountId + "%")]
  {
    TwoPlacesRendered(ACCOUNT_IS, AccountIs, OR_NAME_LIKE, AccountLike, CLOSE);
    TwoPlacesArgs(ACCOUNT_IS, AccountIs, OR_NAME_LIKE, AccountLike, CLOSE, f);
    AccountText();
  }

  /** The clause and its arguments, spelled out: a range wins over a single date, half a range counts for nothing, and
      an account is asked for by its id or a part of its name. */
  predicate WhereIs(f: Filter, where: string, args: seq<Arg>) {
    var range, dated, named := f.dateFrom != "" && f.dateTo != "", f.date != "", f.accountId != "";
    var like := [Text(f.accountId), Text("%" + f.accountId + "%")];
    && (!range && !dated && !named ==> where == "" && args == [])
    && (range && !named ==> where == "WHERE sr.date BETWEEN ? AND ?" && args == [Text(f.dateFrom), Text(f.dateTo)])
    && (!range && dated && !named ==> where == "WHERE sr.date = ?" && args == [Text(f.date)])
    && (!range && !dated && named ==>
          where == "WHERE " + "(sr.account_id = ? OR LOWER(a.name) LIKE LOWER(?))" && args == like)
    && (range && named ==>
          && where == "WHERE sr.date BETWEEN ? AND ? AND " + "(sr.account_id = ? OR LOWER(a.name) LIKE LOWER(?))"
          && args == [Text(f.dateFrom), Text(f.dateTo)] + like)
    && (!range && dated && named ==>
          && where == "WHERE sr.date = ? AND " + "(sr.account_id = ? OR LOWER(a.name) LIKE LOWER(?))"
          && args == [Text(f.date)] + like)
  }

  lemma OneCondition(cond: string)
    ensures Join([cond], " AND ") == cond
    ensures "WHERE " + "sr.date BETWEEN ? AND ?" == "WHERE sr.date BETWEEN ? AND ?"
    ensures "WHERE " + "sr.date = ?" == "WHERE sr.date = ?"
  {
  }

  lemma TwoConditions(x: string, y: string)
    ensures "WHERE " + Join([x, y], " AND ") == "WHERE " + x + " AND " + y
  {
    assert [x, y][1..] == [y];
    assert "WHERE " + (x + " AND " + y) == "WHERE " + x + " AND " + y;
  }

  lemma RangeAnd(y: string)
    ensures "WHERE " + "sr.date BETWEEN ? AND ?" + " AND " + y == "WHERE sr.date BETWEEN ? AND ? AND " + y
  {
    OneCondition("");
    assert "WHERE sr.date BETWEEN ? AND ?" + " AND " == "WHERE sr.date BETWEEN ? AND ? AND ";
  }

  lemma DateAnd(y: string)
    ensures "WHERE " + "sr.date = ?" + " AND " + y == "WHERE sr.date = ? AND " + y
  {
    OneCondition("");
    assert "WHERE sr.date = ?" + " AND " == "WHERE sr.date = ? AND ";
  }

  /** The conditions as the code lists them. */
  function CondTexts(f: Filter): seq<string> {
    (if f.dateFrom != "" && f.dateTo != "" then ["sr.date BETWEEN ? AND ?"]
     else if f.date != "" then ["sr.date = ?"] else [])
    + (if f.accountId != "" then ["(sr.account_id = ? OR LOWER(a.name) LIKE LOWER(?))"] else [])
  }

  function CondArgs(f: Filter): seq<Arg> {
    (if f.dateFrom != "" && f.dateTo != "" then [Text(f.dateFrom), Text(f.dateTo)]
     else if f.date != "" then [Text(f.date)] else [])
    + (if f.accountId != "" then [Text(f.accountId), Text("%" + f.accountId + "%")] else [])
  }

  function Clause(f: Filter): string {
    if CondTexts(f) == [] then "" else "WHERE " + Join(CondTexts(f), " AND ")
  }

  lemma ClauseIs(f: Filter)
    ensures WhereIs(f, Clause(f), CondArgs(f))
  {
    var account := "(sr.account_id = ? OR LOWER(a.name) LIKE LOWER(?))";
    if f.accountId == "" {
      OneCondition("sr.date BETWEEN ? AND ?");
      OneCondition("sr.date = ?");
    } else if f.dateFrom != "" && f.dateTo != "" {
      TwoConditions("sr.date BETWEEN ? AND ?", account);
      RangeAnd(account);
      assert CondTexts(f) == ["sr.date BETWEEN ? AND ?", account];
    } else if f.date != "" {
      TwoConditions("sr.date = ?", account);
      DateAnd(account);
      assert CondTexts(f) == ["sr.date = ?", account];
    } else {
      OneCondition(account);
    }
  }

  lemma ConditionsRendered(f: Filter)
    ensures RenderAll(Conditions(f)) == CondTexts(f) && AllArgs(Conditions(f), f) == CondArgs(f)
  {
    BetweenRendered(f);
    DateIsRendered(f);
    AccountRendered(f);
    var account := if f.accountId != "" then [AccountPieces()] else [];
    assert AllArgs([], f) == [];
    AllArgsSnoc([], AccountPieces(), f);
    AllArgsSnoc([], BetweenPieces(), f);
    AllArgsSnoc([], DateIsPieces(), f);
    AllArgsSnoc([BetweenPieces()], AccountPieces(), f);
    AllArgsSnoc([DateIsPieces()], AccountPieces(), f);
  }

  lemma ClauseRendered(f: Filter)
    ensures Clause(f) == Render(WherePieces(f)) && CondArgs(f) == ArgsOf(WherePieces(f), f)
  {
    ConditionsRendered(f);
    JoinRendered(Conditions(f), f);
    TextRendered(WHERE, JoinPieces(Conditions(f)), f);
  }

  /** The conditions and the arguments, each appended in its own place in the code. */
  method BuildWhere(f: Filter) returns (where: string, args: seq<Arg>)
    ensures WhereIs(f, where, args)
    ensures where == Render(WherePieces(f)) && args == ArgsOf(WherePieces(f), f)
  {
    var conds: seq<string> := [];
    args := [];
    if f.dateFrom != "" && f.dateTo != "" {
      conds := conds + ["sr.date BETWEEN ? AND ?"];
      args := args + [Text(f.dateFrom), Text(f.dateTo)];
    } else if f.date != "" {
      conds := conds + ["sr.date = ?"];
      args := args + [Text(f.date)];
    }
    if f.accountId != "" {
      conds := conds + ["(sr.account_id = ? OR LOWER(a.name) LIKE LOWER(?))"];
      args := args + [Text(f.accountId), Text("%" + f.accountId + "%")];
    }
    ClauseIs(f);
    ClauseRendered(f);
    assert conds == CondTexts(f) && args == CondArgs(f);
    where := "";
    if |conds| > 0 {
      where := "WHERE " + Join(conds, " AND ");
    }
  }

  // ----- The two queries -----

  lemma TextsArePlain()
    ensures Plain(WHERE) && Plain(BETWEEN) && Plain(AND) && Opens(AND) && Plain(DATE_IS)
  {
  }

  lemma AccountTextsArePlain()
    ensures Plain(ACCOUNT_IS) && Plain(OR_NAME_LIKE) && Opens(OR_NAME_LIKE) && Plain(CLOSE) && Opens(CLOSE)
  {
  }

  lemma ConditionsAreSafe(f: Filter)
    ensures forall c <- Conditions(f) :: Safe(c)
  {
    TextsArePlain();
    AccountTextsArePlain();
    PlaceIsSafe(AND, DateTo, []);
    PlaceIsSafe(BETWEEN, DateFrom, Place(AND, DateTo, []));
    PlaceIsSafe(DATE_IS, OneDate, []);
    PlaceIsSafe(OR_NAME_LIKE, AccountLike, [Sql(CLOSE)]);
    PlaceIsSafe(ACCOUNT_IS, AccountIs, Place(OR_NAME_LIKE, AccountLike, [Sql(CLOSE)]));
  }

  lemma {:induction false} JoinIsSafe(conds: seq<seq<Piece>>)
    requires forall c <- conds :: Safe(c)
    ensures Safe(JoinPieces(conds))
  {
    if |conds| <= 1 {
    } else {
      TextsArePlain();
      JoinIsSafe(conds[1..]);
      SafeJoin(conds[0], [Sql(AND)] + JoinPieces(conds[1..]));
    }
  }

  lemma WhereIsSafe(f: Filter)
    ensures Safe(WherePieces(f))
  {
    TextsArePlain();
    ConditionsAreSafe(f);
    JoinIsSafe(Conditions(f));
  }

  /** The count query: fixed text and the WHERE clause. */
  function CountPieces(f: Filter, head: string): seq<Piece> {
    [Sql(head)] + WherePieces(f)
  }

  const LIMIT := "LIMIT "
  const OFFSET := " OFFSET "
  const NEWLINE := "\n"

  function PageText(): string {
    LIMIT + "?" + OFFSET + "?" + NEWLINE
  }

  function PagePieces(): seq<Piece> {
    Place(LIMIT, Limit, Place(OFFSET, Offset, [Sql(NEWLINE)]))
  }

  /** The data query: fixed text, the WHERE clause, the fixed ordering, and the page. */
  function DataPieces(f: Filter, head: string, order: string): seq<Piece> {
    [Sql(head)] + WherePieces(f) + ([Sql(order)] + PagePieces())
  }

  lemma PageIsSafe(f: Filter)
    ensures Safe(PagePieces()) && Render(PagePieces()) == PageText()
    ensures ArgsOf(PagePieces(), f) == [ArgFor(f, Limit), ArgFor(f, Offset)]
  {
    PlaceIsSafe(OFFSET, Offset, [Sql(NEWLINE)]);
    PlaceIsSafe(LIMIT, Limit, Place(OFFSET, Offset, [Sql(NEWLINE)]));
    TwoPlacesRendered(LIMIT, Limit, OFFSET, Offset, NEWLINE);
    TwoPlacesArgs(LIMIT, Limit, OFFSET, Offset, NEWLINE, f);
  }

  lemma CountIsSafe(f: Filter, head: string)
    requires Plain(head)
    ensures Safe(CountPieces(f, head))
  {
    WhereIsSafe(f);
    TextIsSafe(head, WherePieces(f));
  }

  lemma DataIsSafe(f: Filter, head: string, order: string)
    requires Plain(head) && Plain(order) && Opens(order)
    ensures Safe(DataPieces(f, head, order))
  {
    CountIsSafe(f, head);
    PageIsSafe(f);
    TextIsSafe(order, PagePieces());
    SafeJoin(CountPieces(f, head), [Sql(order)] + PagePieces());
  }

  lemma CountRendered(f: Filter, head: string)
    ensures Render(CountPieces(f, head)) == head + Render(WherePieces(f))
    ensures ArgsOf(CountPieces(f, head), f) == ArgsOf(WherePieces(f), f)
  {
    TextRendered(head, WherePieces(f), f);
  }

  lemma Regroup(x: string, y: string, z: string)
    ensures x + (y + z) == x + y + z
  {
  }

  lemma PageArgs(f: Filter)
    requires f.page >= 1 && f.pageSize >= 1
    ensures ArgFor(f, Limit) == Number(f.pageSize) && ArgFor(f, Offset) == Number(Wrap64((f.page - 1) * f.pageSize))
  {
  }

  lemma DataRendered(f: Filter, head: string, order: string)
    ensures Render(DataPieces(f, head, order)) == head + Render(WherePieces(f)) + order + Render(PagePieces())
    ensures ArgsOf(DataPieces(f, head, order), f) == ArgsOf(WherePieces(f), f) + ArgsOf(PagePieces(), f)
  {
    var front, back := CountPieces(f, head), [Sql(order)] + PagePieces();
    CountRendered(f, head);
    TextRendered(order, PagePieces(), f);
    RenderSplit(front, back);
    ArgsSplit(front, back, f);
    Regroup(Render(front), order, Render(PagePieces()));
  }

  lemma CountMeans(f: Filter, head: string, postgres: bool)
    requires Plain(head)
    ensures Asks(postgres, Bound(head + Render(WherePieces(f)), postgres), ArgsOf(WherePieces(f), f),
      CountPieces(f, head), f)
    ensures Detached(Render(CountPieces(f, head)))
  {
    CountRendered(f, head);
    CountIsSafe(f, head);
    SafeText(CountPieces(f, head));
    EverySlotGetsItsOwn(CountPieces(f, head), f, postgres);
  }

  lemma DataMeans(f: Filter, head: string, order: string, postgres: bool)
    requires Plain(head) && Plain(order) && Opens(order)
    ensures Asks(postgres, Bound(head + Render(WherePieces(f)) + order + PageText(), postgres),
                 ArgsOf(WherePieces(f), f) + [ArgFor(f, Limit), ArgFor(f, Offset)], DataPieces(f, head, order), f)
    ensures Detached(Render(DataPieces(f, head, order)))
  {
    DataRendered(f, head, order);
    PageIsSafe(f);
    DataIsSafe(f, head, order);
    SafeText(DataPieces(f, head, order));
    EverySlotGetsItsOwn(DataPieces(f, head, order), f, postgres);
  }

  /** The values of the page's two places: a page below one is the first, and a size below one is fifty. */
  predicate PageArgsAre(f: Filter, args: seq<Arg>) {
    var page, size := if f.page < 1 then 1 else f.page, if f.pageSize < 1 then 50 else f.pageSize;
    args == [Number(size), Number(Wrap64((page - 1) * size))]
  }

  lemma PageTextIs(q: string)
    ensures q + PageText() == q + "LIMIT ? OFFSET ?\n"
  {
  }

  lemma ClampedWhere(f: Filter, where: string, args: seq<Arg>)
    ensures WhereIs(Clamped(f), where, args) == WhereIs(f, where, args)
  {
  }

  lemma PageArgsFollow(f0: Filter, f: Filter, args: seq<Arg>)
    requires f == Clamped(f0)
    ensures var all := args + [Number(f.pageSize), Number(Wrap64((f.page - 1) * f.pageSize))];
      args <= all && PageArgsAre(f0, all[|args|..])
  {
    var page := [Number(f.pageSize), Number(Wrap64((f.page - 1) * f.pageSize))];
    assert (args + page)[|args|..] == page;
  }

  /** Both queries as they reach the driver: the clause and the values spelled out, and each placeholder, as the driver
      counts it, asks for the value its place is for, for every filter and on either driver; no placeholder touches a
      word. The fixed SQL around them is any text that names no placeholder and does not start, after the WHERE clause,
      with a word. */
  method ListSpendRaw(f0: Filter, postgres: bool, countHead: string, head: string, order: string)
    returns (count: string, countArgs: seq<Arg>, data: string, dataArgs: seq<Arg>, ghost where: string)
    requires Plain(countHead) && Plain(head) && Plain(order) && Opens(order)
    ensures WhereIs(f0, where, countArgs)
    ensures count == Bound(countHead + where, postgres)
    ensures data == Bound(head + where + order + "LIMIT ? OFFSET ?\n", postgres)
    ensures countArgs <= dataArgs && PageArgsAre(f0, dataArgs[|countArgs|..])
    ensures var f := Clamped(f0);
      && Asks(postgres, count, countArgs, CountPieces(f, countHead), f)
      && Asks(postgres, data, dataArgs, DataPieces(f, head, order), f)
      && Detached(Render(CountPieces(f, countHead))) && Detached(Render(DataPieces(f, head, order)))
  {
    var f := f0;
    if f.page < 1 {
      f := f.(page := 1);
    }
    if f.pageSize < 1 {
      f := f.(pageSize := 50);
    }
    assert f == Clamped(f0);
    PageArgs(f);
    var fragment, args := BuildWhere(f);
    where := fragment;
    ClampedWhere(f0, fragment, args);
    PageArgsFollow(f0, f, args);
    count := RebindQuery(countHead + fragment, postgres);
    countArgs := args;
    dataArgs := args + [Number(f.pageSize), Number(Wrap64((f.page - 1) * f.pageSize))];
    data := RebindQuery(head + fragment + order + PageText(), postgres);
    PageTextIs(head + fragment + order);
    CountMeans(f, countHead, postgres);
    DataMeans(f, head, order, postgres);
  }
}
