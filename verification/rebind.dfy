/** Placeholder rewriting for PostgreSQL. */
module Rebind {
  import opened Decimal

  /** The k-th question mark becomes $k, counting from n + 1. */
  function Rebound(q: string, n: nat): string {
    if q == "" then ""
    else if q[0] == '?' then "$" + Digits(n + 1) + Rebound(q[1..], n + 1)
    else [q[0]] + Rebound(q[1..], n)
  }

  method RebindQuery(q: string, postgres: bool) returns (r: string)
    ensures r == if postgres then Rebound(q, 0) else q
  {
    if !postgres {
      return q;
    }
    var n := 0;
    var b := "";
    for i := 0 to |q|
      invariant n >= 0 && b + Rebound(q[i..], n) == Rebound(q, 0)
    {
      assert q[i..][1..] == q[i + 1..];
      if q[i] == '?' {
        assert b + ("$" + Digits(n + 1) + Rebound(q[i + 1..], n + 1))
          == b + "$" + Digits(n + 1) + Rebound(q[i + 1..], n + 1);
        n := n + 1;
        b := b + "$";
        b := b + Digits(n);
      } else {
        assert b + ([q[i]] + Rebound(q[i + 1..], n)) == b + [q[i]] + Rebound(q[i + 1..], n);
        b := b + [q[i]];
      }
    }
    return b;
  }

  // ----- What a query's placeholders mean -----

  datatype Token = Char(c: char) | Param(k: nat)

  /** With question marks, the k-th one stands for argument k. */
  function MarkTokens(q: string, n: nat): seq<Token> {
    if q == "" then []
    else if q[0] == '?' then [Param(n + 1)] + MarkTokens(q[1..], n + 1)
    else [Char(q[0])] + MarkTokens(q[1..], n)
  }

  /** How many digits s starts with. */
  function DigitRun(s: string): (n: nat)
    ensures n <= |s| && AllDigits(s[..n]) && (n < |s| ==> !IsDigit(s[n]))
  {
    if s == "" || !IsDigit(s[0]) then 0
    else
      var n := 1 + DigitRun(s[1..]);
      assert s[..n] == [s[0]] + s[1..][..n - 1];
      n
  }

  /** The lexical reading of PostgreSQL's parameters: a dollar sign and all the digits after it are one placeholder,
      whatever follows. */
  function DollarTokens(s: string): seq<Token>
    decreases |s|
  {
    if s == "" then []
    else if s[0] == '$' && DigitRun(s[1..]) > 0 then
      [Param(Value(s[1..][..DigitRun(s[1..])]))] + DollarTokens(s[1..][DigitRun(s[1..])..])
    else [Char(s[0])] + DollarTokens(s[1..])
  }

  predicate IsWordChar(c: char) {
    IsDigit(c) || 'a' <= c <= 'z' || 'A' <= c <= 'Z' || c == '_'
  }

  /** No question mark touches a word. Then no driver reads anything into a placeholder: SQLite takes a number right
      after a question mark for the parameter's own, and newer PostgreSQL versions refuse a letter right after a
      number. */
  predicate Detached(q: string) {
    forall i :: 0 <= i < |q| - 1 && q[i] == '?' ==> !IsWordChar(q[i + 1])
  }

  /** No question mark stands right before a digit. */
  predicate Separated(q: string) {
    forall i :: 0 <= i < |q| - 1 && q[i] == '?' ==> !IsDigit(q[i + 1])
  }

  lemma {:induction false} DigitRunAfter(d: string, r: string)
    requires AllDigits(d)
    ensures DigitRun(d + r) == |d| + DigitRun(r)
  {
    if d == "" {
      assert d + r == r;
    } else {
      assert (d + r)[1..] == d[1..] + r;
      DigitRunAfter(d[1..], r);
    }
  }

  lemma DollarNumber(digits: string, rest: string)
    requires digits != "" && AllDigits(digits) && DigitRun(rest) == 0
    ensures DollarTokens("$" + digits + rest) == [Param(Value(digits))] + DollarTokens(rest)
  {
    var s := "$" + digits + rest;
    assert s[1..] == digits + rest;
    DigitRunAfter(digits, rest);
    TakeAndDrop(digits, rest);
  }

  lemma TakeAndDrop(x: string, y: string)
    ensures (x + y)[..|x|] == x && (x + y)[|x|..] == y
  {
  }

  /** A dollar sign, digits, and what follows: the placeholder takes in the digits that follow too. */
  lemma DollarHead(d: string, r: string)
    requires d != "" && AllDigits(d)
    ensures AllDigits(d + r[..DigitRun(r)])
    ensures DollarTokens("$" + d + r) == [Param(Value(d + r[..DigitRun(r)]))] + DollarTokens(r[DigitRun(r)..])
  {
    var run := DigitRun(r);
    assert "$" + d + r == "$" + (d + r[..run]) + r[run..];
    DollarNumber(d + r[..run], r[run..]);
  }

  lemma HeadOfRebound(q: string, n: nat)
    ensures DigitRun(Rebound(q, n)) > 0 <==> q != "" && IsDigit(q[0])
  {
  }

  /** The rewriting keeps a query's meaning exactly when no question mark stands right before a digit; with one that
      does, the digit is read into the placeholder's number. */
  lemma {:induction false} RebindKeepsMeaning(q: string, n: nat)
    requires '$' !in q
    ensures DollarTokens(Rebound(q, n)) == MarkTokens(q, n) <==> Separated(q)
  {
    if q == "" {
    } else {
      var rest := q[1..];
      assert forall i :: 0 <= i < |rest| ==> rest[i] == q[i + 1];
      assert Separated(q) <==> Separated(rest) && (q[0] == '?' && rest != "" ==> !IsDigit(rest[0]));
      if q[0] == '?' {
        var d, r := Digits(n + 1), Rebound(rest, n + 1);
        DollarHead(d, r);
        HeadOfRebound(rest, n + 1);
        ValueOfDigits(n + 1);
        ValueGrows(d, r[..DigitRun(r)]);
        if DigitRun(r) == 0 {
          assert d + r[..0] == d && r[0..] == r;
          RebindKeepsMeaning(rest, n + 1);
          SameTail(Param(n + 1), DollarTokens(r), MarkTokens(rest, n + 1));
        } else {
          assert DollarTokens(Rebound(q, n))[0] != MarkTokens(q, n)[0];
        }
      } else {
        RebindKeepsMeaning(rest, n);
        assert Rebound(q, n)[1..] == Rebound(rest, n);
        SameTail(Char(q[0]), DollarTokens(Rebound(rest, n)), MarkTokens(rest, n));
      }
    }
  }

  lemma SameTail(t: Token, x: seq<Token>, y: seq<Token>)
    ensures [t] + x == [t] + y <==> x == y
  {
    assert ([t] + x)[1..] == x && ([t] + y)[1..] == y;
  }

  /** Undoes the rewriting, knowing which number comes next. */
  function Unbound(s: string, n: nat): string
    decreases |s|
  {
    if s == "" then ""
    else if s[0] == '$' && |s| > |Digits(n + 1)| then "?" + Unbound(s[1 + |Digits(n + 1)|..], n + 1)
    else [s[0]] + Unbound(s[1..], n)
  }

  /** Nothing else is lost: the original query can be read back. */
  lemma {:induction false} RebindHasInverse(q: string, n: nat)
    requires '$' !in q
    ensures Unbound(Rebound(q, n), n) == q
  {
    if q == "" {
    } else {
      if q[0] == '?' {
        RebindHasInverse(q[1..], n + 1);
        assert Rebound(q, n)[1 + |Digits(n + 1)|..] == Rebound(q[1..], n + 1);
      } else {
        RebindHasInverse(q[1..], n);
        assert Rebound(q, n)[1..] == Rebound(q[1..], n);
      }
    }
  }

  lemma {:induction false} RebindWithoutMarks(x: string, y: string, n: nat)
    requires '?' !in x
    ensures Rebound(x + y, n) == x + Rebound(y, n)
  {
    if x == "" {
      assert x + y == y;
    } else {
      assert (x + y)[1..] == x[1..] + y;
      RebindWithoutMarks(x[1..], y, n);
    }
  }

  lemma {:induction false} RebindBeforeText(x: string, y: string, n: nat)
    requires '?' !in y
    ensures Rebound(x + y, n) == Rebound(x, n) + y
  {
    if x == "" {
      RebindWithoutMarks(y, "", n);
      assert y + "" == y && x + y == y;
    } else {
      assert (x + y)[1..] == x[1..] + y;
      RebindBeforeText(x[1..], y, if x[0] == '?' then n + 1 else n);
    }
  }

  /** Rewriting only the WHERE fragment is rewriting the whole query, when the text around it has no placeholders. */
  lemma FragmentIsEnough(before: string, fragment: string, after: string)
    requires '?' !in before && '?' !in after
    ensures Rebound(before + fragment + after, 0) == before + Rebound(fragment, 0) + after
  {
    RebindBeforeText(before + fragment, after, 0);
    RebindWithoutMarks(before, fragment, 0);
  }
}
