/**
 Placeholder dialects.  MySQL binds the k-th "?" to the k-th argument; PostgreSQL
 binds "$k", wherever it stands.  The builder writes "?" and renumbers for
 PostgreSQL; this module says exactly when both servers see the same statement.
 */
module Placeholders {
  import opened Seqs
  import opened Sql

  predicate IsDigit(c: char)
  {
    '0' <= c <= '9'
  }

  predicate Digits(s: string)
  {
    forall i :: 0 <= i < |s| ==> IsDigit(s[i])
  }

  /** The digits s starts with. */
  function Run(s: string): (r: string)
    ensures |r| <= |s| && Digits(r)
  {
    if s == "" || !IsDigit(s[0]) then "" else [s[0]] + Run(s[1..])
  }

  function Number(ds: string): nat
    requires Digits(ds)
  {
    if ds == "" then 0 else 10 * Number(ds[..|ds| - 1]) + (ds[|ds| - 1] - '0') as nat
  }

  /** s begins with the number of one of count arguments. */
  predicate Names(s: string, count: nat)
  {
    1 <= Number(Run(s)) <= count
  }

  /** How a PostgreSQL server reads a statement. */
  function BindDollar(sql: string, args: seq<Value>): seq<Piece>
    decreases |sql|
  {
    if sql == "" then []
    else if sql[0] == '$' && Names(sql[1..], |args|) then
      [Val(args[Number(Run(sql[1..])) - 1])] + BindDollar(sql[1..][|Run(sql[1..])|..], args)
    else [Ch(sql[0])] + BindDollar(sql[1..], args)
  }

  /** "?" number k, counting on from n, becomes "$k". */
  function Numbered(sql: string, n: nat): string
  {
    if sql == "" then ""
    else if sql[0] == '?' then "$" + Decimal(n + 1) + Numbered(sql[1..], n + 1)
    else [sql[0]] + Numbered(sql[1..], n)
  }

  method NormalizePlaceholders(driver: Driver, sql: string, args: seq<Value>) returns (out: string, outArgs: seq<Value>)
    ensures outArgs == args
    ensures out == if driver.Postgres? then Numbered(sql, 0) else sql
  {
    if driver != Postgres {
      return sql, args;
    }
    var sb, n := "", 0;
    for i := 0 to |sql|
      invariant n >= 0
      invariant sb + Numbered(sql[i..], n) == Numbered(sql, 0)
    {
      var ch := sql[i];
      assert sql[i..][1..] == sql[i + 1..];
      if ch == '?' {
        Assoc(sb, "$" + Decimal(n + 1), Numbered(sql[i + 1..], n + 1));
        n := n + 1;
        sb := sb + ("$" + Decimal(n));
      } else {
        Assoc(sb, [ch], Numbered(sql[i + 1..], n));
        sb := sb + [ch];
      }
    }
    return sb, args;
  }

  // ----------------------------------------------------- reading numbers

  lemma {:induction false} NumberOfDecimal(n: nat)
    ensures Digits(Decimal(n)) && Number(Decimal(n)) == n
  {
    var s := Decimal(n);
    forall i | 0 <= i < |s| ensures IsDigit(s[i]) {
      assert s[i] in s;
    }
    if n >= 10 {
      NumberOfDecimal(n / 10);
      assert s[..|s| - 1] == Decimal(n / 10);
    } else {
      assert s[..0] == "";
      assert Number("") == 0;
      assert s[|s| - 1] == Digit(n);
    }
  }

  lemma {:induction false} RunAppend(ds: string, t: string)
    requires Digits(ds)
    ensures Run(ds + t) == ds + Run(t)
  {
    if ds == "" {
      assert ds + t == t;
    } else {
      assert IsDigit(ds[0]);
      assert (ds + t)[1..] == ds[1..] + t;
      RunAppend(ds[1..], t);
      assert [ds[0]] + (ds[1..] + Run(t)) == ds + Run(t);
    }
  }

  lemma {:induction false} RunNumbered(sql: string, n: nat)
    ensures Run(Numbered(sql, n)) == Run(sql)
  {
    if sql != "" && IsDigit(sql[0]) {
      RunNumbered(sql[1..], n);
      assert Numbered(sql, n)[1..] == Numbered(sql[1..], n);
    }
  }

  predicate DigitFirst(s: string)
  {
    s != "" && IsDigit(s[0])
  }

  lemma {:induction false} RunStops(s: string)
    ensures !DigitFirst(s[|Run(s)|..])
  {
    if DigitFirst(s) {
      RunStops(s[1..]);
      assert s[1..][|Run(s[1..])|..] == s[|Run(s)|..];
    }
  }

  // ------------------------------------------------------------- theorem

  /**
   Nothing in the text can be mistaken for a numbered placeholder: no digit
   stands right after a "?", and no "$" before the number of an argument.
   */
  predicate Clean(sql: string, count: nat)
  {
    sql == ""
    || (&& (sql[0] == '?' ==> !DigitFirst(sql[1..]))
        && (sql[0] == '$' ==> !Names(sql[1..], count))
        && Clean(sql[1..], count))
  }

  lemma SameHead<T>(p: T, xs: seq<T>, ys: seq<T>)
    ensures [p] + xs == [p] + ys <==> xs == ys
  {
    if [p] + xs == [p] + ys {
      assert ([p] + xs)[1..] == xs && ([p] + ys)[1..] == ys;
    }
  }

  lemma DollarNames(s: string, rest: string, args: seq<Value>)
    requires s == "$" + rest && Names(rest, |args|)
    ensures BindDollar(s, args) == [Val(args[Number(Run(rest)) - 1])] + BindDollar(rest[|Run(rest)|..], args)
  {
    assert s[1..] == rest;
  }

  lemma PlainHead(s: string, c: char, rest: string, args: seq<Value>)
    requires s == [c] + rest && !(c == '$' && Names(rest, |args|))
    ensures BindDollar(s, args) == [Ch(c)] + BindDollar(rest, args)
  {
    assert s[1..] == rest;
  }

  /** What follows a whole number never starts with a digit character. */
  lemma NotADigitNext(s: string, args: seq<Value>, c: char)
    requires !DigitFirst(s) && IsDigit(c)
    ensures BindDollar(s, args) == [] || BindDollar(s, args)[0] != Ch(c)
  {
    if s != "" {
      if s[0] == '$' && Names(s[1..], |args|) {
        DollarNames(s, s[1..], args);
      } else {
        PlainHead(s, s[0], s[1..], args);
      }
    }
  }

  /** A placeholder followed by anything but a digit is read as its own number. */
  lemma NumberIsReadBack(k: nat, rest: string, args: seq<Value>)
    requires 1 <= k <= |args| && !DigitFirst(rest)
    ensures BindDollar("$" + Decimal(k) + rest, args) == [Val(args[k - 1])] + BindDollar(rest, args)
  {
    NumberOfDecimal(k);
    RunIsDigits(Decimal(k), rest);
    DollarReads(Decimal(k) + rest, k, |Decimal(k)|, rest, args);
    Assoc("$", Decimal(k), rest);
  }

  lemma DollarReads(tail: string, k: nat, n: nat, rest: string, args: seq<Value>)
    requires Number(Run(tail)) == k && |Run(tail)| == n && tail[n..] == rest && 1 <= k <= |args|
    ensures BindDollar("$" + tail, args) == [Val(args[k - 1])] + BindDollar(rest, args)
  {
    var s := "$" + tail;
    assert s[0] == '$' && s[1..] == tail;
  }

  lemma RunIsDigits(ds: string, rest: string)
    requires Digits(ds) && !DigitFirst(rest)
    ensures Run(ds + rest) == ds && (ds + rest)[|ds|..] == rest
  {
    RunAppend(ds, rest);
    assert Run(rest) == "";
  }

  /** A placeholder followed by a digit is never read as its own number. */
  lemma LongerNumberIsMisread(k: nat, rest: string, args: seq<Value>, v: Value, ys: seq<Piece>)
    requires DigitFirst(rest)
    requires ys != [] && ys[0] == Ch(rest[0])
    ensures BindDollar("$" + Decimal(k) + rest, args) != [Val(v)] + ys
  {
    var tail := Decimal(k) + rest;
    var s := "$" + tail;
    assert "$" + Decimal(k) + rest == s;
    if Names(tail, |args|) {
      DollarNames(s, tail, args);
      var after := tail[|Run(tail)|..];
      RunStops(tail);
      NotADigitNext(after, args, rest[0]);
      var got := BindDollar(s, args);
      assert got[1..] == BindDollar(after, args);
      assert ([Val(v)] + ys)[1..] == ys;
    } else {
      PlainHead(s, '$', tail, args);
      assert BindDollar(s, args)[0] == Ch('$');
    }
  }

  /**
   Renumbering keeps the statement exactly when the text is clean: the
   PostgreSQL reading of the renumbered text is the MySQL reading of the original.
   */
  lemma {:induction false} RenumberingKeepsMeaning(sql: string, n: nat, args: seq<Value>)
    requires n + Holes(sql) <= |args|
    ensures BindDollar(Numbered(sql, n), args) == Bind(sql, args[n..]) <==> Clean(sql, |args|)
    decreases |sql|
  {
    if sql != "" {
      var c, rest := sql[0], sql[1..];
      assert sql == [c] + rest;
      if c == '?' {
        RenumberingKeepsMeaning(rest, n + 1, args);
        HoleCase(sql, rest, n, args);
      } else {
        RenumberingKeepsMeaning(rest, n, args);
        CharCase(sql, c, rest, n, args);
      }
    }
  }

  lemma HoleCase(sql: string, rest: string, n: nat, args: seq<Value>)
    requires sql == ['?'] + rest && n < |args|
    requires BindDollar(Numbered(rest, n + 1), args) == Bind(rest, args[n + 1..]) <==> Clean(rest, |args|)
    ensures BindDollar(Numbered(sql, n), args) == Bind(sql, args[n..]) <==> Clean(sql, |args|)
  {
    var text := Numbered(rest, n + 1);
    assert sql[1..] == rest;
    assert args[n..] == [args[n]] + args[n + 1..];
    BindHole(sql, rest, args[n..], args[n], args[n + 1..]);
    FirstDigitKept(rest, n + 1);
    if DigitFirst(rest) {
      BindChar(rest, rest[0], rest[1..], args[n + 1..]);
      LongerNumberIsMisread(n + 1, text, args, args[n], Bind(rest, args[n + 1..]));
    } else {
      NumberIsReadBack(n + 1, text, args);
      SameHead(Val(args[n]), BindDollar(text, args), Bind(rest, args[n + 1..]));
    }
  }

  lemma FirstDigitKept(sql: string, n: nat)
    ensures DigitFirst(Numbered(sql, n)) <==> DigitFirst(sql)
    ensures DigitFirst(sql) ==> Numbered(sql, n)[0] == sql[0]
  {
  }

  lemma CharCase(sql: string, c: char, rest: string, n: nat, args: seq<Value>)
    requires sql == [c] + rest && c != '?' && n <= |args|
    requires BindDollar(Numbered(rest, n), args) == Bind(rest, args[n..]) <==> Clean(rest, |args|)
    ensures BindDollar(Numbered(sql, n), args) == Bind(sql, args[n..]) <==> Clean(sql, |args|)
  {
    assert sql[1..] == rest;
    var text := Numbered(rest, n);
    assert Numbered(sql, n) == [c] + text;
    BindChar(sql, c, rest, args[n..]);
    RunNumbered(rest, n);
    if c == '$' && Names(rest, |args|) {
      DollarNames([c] + text, text, args);
      assert BindDollar([c] + text, args)[0] != Ch(c);
    } else {
      PlainHead([c] + text, c, text, args);
      SameHead(Ch(c), BindDollar(text, args), Bind(rest, args[n..]));
    }
  }

  /** Every statement of the builder reaches both servers as the same statement. */
  lemma BothDialectsAgree(q: Query, st: Statement)
    requires Tidy(q) && st.Ok()
    ensures BindDollar(Numbered(Texts(FragsOf(q, st)), 0), Args(FragsOf(q, st))) == Bound(FragsOf(q, st))
            <==> Clean(Texts(FragsOf(q, st)), |Args(FragsOf(q, st))|)
  {
    var fs := FragsOf(q, st);
    EveryStatementIsAligned(q, st);
    assert Args(fs)[0..] == Args(fs);
    RenumberingKeepsMeaning(Texts(fs), 0, Args(fs));
  }

  /** Text without "$" and without "?digit" is clean. */
  lemma {:induction false} OrdinaryTextIsClean(sql: string, count: nat)
    requires '$' !in sql
    requires forall i :: 0 <= i < |sql| - 1 && sql[i] == '?' ==> !IsDigit(sql[i + 1])
    ensures Clean(sql, count)
  {
    if sql != "" {
      assert sql[0] in sql;
      assert sql[0] == '?' && |sql| > 1 ==> !IsDigit(sql[0 + 1]);
      forall i | 0 <= i < |sql[1..]| - 1 && sql[1..][i] == '?' ensures !IsDigit(sql[1..][i + 1]) {
        assert sql[i + 1] == '?';
        assert sql[i + 1 + 1] == sql[1..][i + 1];
      }
      OrdinaryTextIsClean(sql[1..], count);
    }
  }

  /** "?5" renumbers to "$15": the digit joins the number. */
  lemma DigitAfterHoleIsMisread(v: Value)
    ensures Numbered("?5", 0) == "$15"
    ensures BindDollar(Numbered("?5", 0), [v]) != Bind("?5", [v])
  {
    assert "?5"[1..] == "5" && "5"[1..] == "";
    assert Decimal(1) == "1";
    assert Numbered("5", 1) == "5";
    assert Numbered("?5", 0) == "$" + "1" + "5" == "$15";
    assert [v][0..] == [v];
    assert Holes("?5") == 1;
    assert DigitFirst("5");
    RenumberingKeepsMeaning("?5", 0, [v]);
  }
}
