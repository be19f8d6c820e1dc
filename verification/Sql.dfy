/**
 SQL assembly: every statement is a list of fragments, each with the arguments
 that belong to its own placeholders, and the builder emits their texts and
 their arguments side by side.
 */
module Sql {
  import opened Seqs

  /** An argument value; nothing is assumed about it. */
  type Value = int

  datatype Frag = Frag(text: string, args: seq<Value>)

  datatype Where = Where(clause: string, args: seq<Value>, or: bool)

  datatype Driver = Postgres | MySQL

  /** The builder's fields. */
  datatype Query = Query(
    driver: Driver,
    table: string,
    selects: seq<string>,
    joins: seq<string>,
    wheres: seq<Where>,
    groupBys: seq<string>,
    having: string,
    havingArgs: seq<Value>,
    orderBys: seq<string>,
    limit: int,
    offset: int,
    rawSQL: string,
    rawArgs: seq<Value>,
    softDelete: bool,
    withTrashed: bool)

  /** Every occurrence of the quote character written twice. */
  function Doubled(s: string, mark: char): string
  {
    if s == "" then "" else (if s[0] == mark then [mark, mark] else [s[0]]) + Doubled(s[1..], mark)
  }

  function QuoteIdent(driver: Driver, s: string): string
  {
    var mark := if driver.Postgres? then '\"' else '`';
    [mark] + Doubled(s, mark) + [mark]
  }

  // ------------------------------------------------------------ fragments

  function Texts(fs: seq<Frag>): string
  {
    if fs == [] then "" else Texts(fs[..|fs| - 1]) + fs[|fs| - 1].text
  }

  function Args(fs: seq<Frag>): seq<Value>
  {
    if fs == [] then [] else Args(fs[..|fs| - 1]) + fs[|fs| - 1].args
  }

  lemma {:induction false} TextsAppend(a: seq<Frag>, b: seq<Frag>)
    ensures Texts(a + b) == Texts(a) + Texts(b)
    ensures Args(a + b) == Args(a) + Args(b)
  {
    if b == [] {
      assert a + b == a;
    } else {
      var front, last := b[..|b| - 1], b[|b| - 1];
      assert (a + b)[..|a + b| - 1] == a + front;
      TextsAppend(a, front);
      assert Texts(a) + (Texts(front) + last.text) == Texts(a) + Texts(front) + last.text;
      assert Args(a) + (Args(front) + last.args) == Args(a) + Args(front) + last.args;
    }
  }

  lemma TextsOne(f: Frag)
    ensures Texts([f]) == f.text && Args([f]) == f.args
  {
    var none: seq<Frag> := [];
    assert [f][..0] == none;
    assert Texts(none) + f.text == f.text && Args(none) + f.args == f.args;
  }

  function JoinWith(parts: seq<string>, sep: string): string
  {
    if parts == [] then ""
    else if |parts| == 1 then parts[0]
    else JoinWith(parts[..|parts| - 1], sep) + sep + parts[|parts| - 1]
  }

  function Only(text: string): seq<Frag>
  {
    [Frag(text, [])]
  }

  /** One condition of the chain, after its connective. */
  function WhereFrags(ws: seq<Where>): seq<Frag>
  {
    if ws == [] then []
    else
      var front, w := ws[..|ws| - 1], ws[|ws| - 1];
      WhereFrags(front) + [Frag(Lead(front == [], w.or), []), Frag(w.clause, w.args), Frag(")", [])]
  }

  function Lead(first: bool, or: bool): string
  {
    if first then "(" else if or then " OR (" else " AND ("
  }

  function DeletedFilter(driver: Driver): string
  {
    QuoteIdent(driver, "deleted_at") + " IS NULL"
  }

  /** The WHERE part: the soft-delete filter conjoined with the parenthesised chain. */
  function FilterFrags(q: Query): seq<Frag>
  {
    var live := q.softDelete && !q.withTrashed;
    if q.wheres == [] then (if live then Only(" WHERE ") + Only(DeletedFilter(q.driver)) else [])
    else if live then
      Only(" WHERE ") + Only(DeletedFilter(q.driver)) + Only(" AND (") + WhereFrags(q.wheres) + Only(")")
    else Only(" WHERE ") + WhereFrags(q.wheres)
  }

  function Joins(joins: seq<string>): string
  {
    if joins == [] then "" else Joins(joins[..|joins| - 1]) + " " + joins[|joins| - 1]
  }

  function FromFrags(q: Query): seq<Frag>
  {
    Only(" FROM " + QuoteIdent(q.driver, q.table)) + Only(Joins(q.joins))
  }

  function GroupFrags(q: Query): seq<Frag>
  {
    Only(if q.groupBys == [] then "" else " GROUP BY " + JoinWith(q.groupBys, ", "))
    + if q.having == "" then [] else Only(" HAVING ") + [Frag(q.having, q.havingArgs)]
  }

  /** From FROM to HAVING: which rows (or groups) the query is about. */
  function CoreFrags(q: Query): seq<Frag>
  {
    FromFrags(q) + FilterFrags(q) + GroupFrags(q)
  }

  function Digit(d: nat): char
    requires d < 10
  {
    '0' + d as char
  }

  function Decimal(n: nat): (s: string)
    ensures s != "" && forall c :: c in s ==> '0' <= c <= '9'
  {
    if n < 10 then [Digit(n)] else Decimal(n / 10) + [Digit(n % 10)]
  }

  /** Order and page: how the rows are presented. */
  function TailText(q: Query): string
  {
    (if q.orderBys == [] then "" else " ORDER BY " + JoinWith(q.orderBys, ", "))
    + (if q.limit > 0 then " LIMIT " + Decimal(q.limit) else "")
    + (if q.offset > 0 then " OFFSET " + Decimal(q.offset) else "")
  }

  function Columns(q: Query): string
  {
    "SELECT " + if q.selects == [] then "*" else JoinWith(q.selects, ", ")
  }

  function SelectFrags(q: Query): seq<Frag>
  {
    if q.rawSQL != "" then [Frag(q.rawSQL, q.rawArgs)]
    else Only(Columns(q)) + CoreFrags(q) + Only(TailText(q))
  }

  function Stripped(q: Query): Query
  {
    q.(selects := ["1"], orderBys := [], limit := 0, offset := 0)
  }

  function CountFrags(q: Query): seq<Frag>
  {
    if q.groupBys != [] then
      Only("SELECT COUNT(*) FROM (") + SelectFrags(Stripped(q)) + Only(") AS _oni_count")
    else SelectFrags(q.(selects := ["COUNT(*)"]))
  }

  /** q(c1) = ?, q(c2) = ?, ... with one value each. */
  function SetFrags(driver: Driver, cols: seq<string>, vals: seq<Value>): seq<Frag>
    requires |cols| == |vals|
  {
    if cols == [] then []
    else
      var n := |cols| - 1;
      SetFrags(driver, cols[..n], vals[..n])
      + [Frag((if n == 0 then "" else ", ") + QuoteIdent(driver, cols[n]), []), Frag(" = ?", [vals[n]])]
  }

  function UpdateFrags(q: Query, cols: seq<string>, vals: seq<Value>): seq<Frag>
    requires |cols| == |vals|
  {
    Only("UPDATE " + QuoteIdent(q.driver, q.table) + " SET ") + SetFrags(q.driver, cols, vals)
    + if q.wheres == [] then [] else Only(" WHERE ") + WhereFrags(q.wheres)
  }

  function DeleteFrags(q: Query): seq<Frag>
  {
    Only("DELETE FROM " + QuoteIdent(q.driver, q.table))
    + if q.wheres == [] then [] else Only(" WHERE ") + WhereFrags(q.wheres)
  }

  /** Delete on a soft-delete builder stamps deleted_at instead. */
  function DeleteStmtFrags(q: Query, now: Value): seq<Frag>
  {
    if q.softDelete then UpdateFrags(q, ["deleted_at"], [now]) else DeleteFrags(q)
  }

  function ValueFrags(vals: seq<Value>): seq<Frag>
  {
    if vals == [] then []
    else
      var n := |vals| - 1;
      ValueFrags(vals[..n]) + [Frag(if n == 0 then "?" else ", ?", [vals[n]])]
  }

  function Quoted(driver: Driver, cols: seq<string>): (r: seq<string>)
    ensures |r| == |cols|
  {
    seq(|cols|, i requires 0 <= i < |cols| => QuoteIdent(driver, cols[i]))
  }

  function InsertFrags(q: Query, cols: seq<string>, vals: seq<Value>): seq<Frag>
  {
    Only("INSERT INTO " + QuoteIdent(q.driver, q.table) + " (" + JoinWith(Quoted(q.driver, cols), ", ") + ") VALUES (")
    + ValueFrags(vals) + Only(")")
  }

  // -------------------------------------------- placeholders and arguments

  /** A statement with its arguments in place. */
  datatype Piece = Ch(c: char) | Val(v: Value)

  function Holes(s: string): nat
  {
    if s == "" then 0 else (if s[0] == '?' then 1 else 0) + Holes(s[1..])
  }

  /** The k-th "?" takes the k-th argument. */
  function Bind(sql: string, args: seq<Value>): seq<Piece>
    decreases |sql|
  {
    if sql == "" then []
    else if sql[0] == '?' && args != [] then [Val(args[0])] + Bind(sql[1..], args[1..])
    else [Ch(sql[0])] + Bind(sql[1..], args)
  }

  predicate Aligned(f: Frag)
  {
    Holes(f.text) == |f.args|
  }

  /** Each fragment bound with its own arguments. */
  function Bound(fs: seq<Frag>): seq<Piece>
  {
    if fs == [] then [] else Bound(fs[..|fs| - 1]) + Bind(fs[|fs| - 1].text, fs[|fs| - 1].args)
  }

  ghost predicate AllAligned(fs: seq<Frag>)
  {
    forall i :: 0 <= i < |fs| ==> Aligned(fs[i])
  }

  lemma {:induction false} HolesAppend(a: string, b: string)
    ensures Holes(a + b) == Holes(a) + Holes(b)
  {
    if a == "" {
      assert a + b == b;
    } else {
      assert (a + b)[1..] == a[1..] + b;
      HolesAppend(a[1..], b);
    }
  }

  /** One placeholder takes one argument. */
  lemma BindHole(t: string, rest: string, zs: seq<Value>, v: Value, more: seq<Value>)
    requires t == ['?'] + rest && zs == [v] + more
    ensures Bind(t, zs) == [Val(v)] + Bind(rest, more)
  {
    assert t[1..] == rest && zs[1..] == more;
  }

  lemma BindChar(t: string, c: char, rest: string, zs: seq<Value>)
    requires t == [c] + rest && c != '?'
    ensures Bind(t, zs) == [Ch(c)] + Bind(rest, zs)
  {
    assert t[1..] == rest;
  }

  lemma {:induction false} BindAppend(a: string, b: string, xs: seq<Value>, ys: seq<Value>)
    requires Holes(a) == |xs|
    ensures Bind(a + b, xs + ys) == Bind(a, xs) + Bind(b, ys)
    decreases |a|
  {
    if a == "" {
      assert a + b == b && xs + ys == ys;
    } else {
      var c, rest := a[0], a[1..];
      if c == '?' {
        var v, more := xs[0], xs[1..];
        BindAppend(rest, b, more, ys);
        BindHole(a, rest, xs, v, more);
        BindHole(a + b, rest + b, xs + ys, v, more + ys);
        Assoc([Val(v)], Bind(rest, more), Bind(b, ys));
      } else {
        BindAppend(rest, b, xs, ys);
        BindChar(a, c, rest, xs);
        BindChar(a + b, c, rest + b, xs + ys);
        Assoc([Ch(c)], Bind(rest, xs), Bind(b, ys));
      }
    }
  }

  /**
   The alignment theorem: when every fragment has as many placeholders as
   arguments, so has the statement, and every argument lands in its own fragment.
   */
  lemma {:induction false} ArgumentsLandInPlace(fs: seq<Frag>)
    requires AllAligned(fs)
    ensures Holes(Texts(fs)) == |Args(fs)|
    ensures Bind(Texts(fs), Args(fs)) == Bound(fs)
  {
    if fs != [] {
      var front, last := fs[..|fs| - 1], fs[|fs| - 1];
      ArgumentsLandInPlace(front);
      HolesAppend(Texts(front), last.text);
      BindAppend(Texts(front), last.text, Args(front), last.args);
    }
  }

  // ----------------------------------------------------- tidy statements

  predicate NoHoles(s: string)
  {
    '?' !in s
  }

  lemma {:induction false} NoHolesMeansZero(s: string)
    requires NoHoles(s)
    ensures Holes(s) == 0
  {
    if s != "" {
      assert s[0] in s;
      assert NoHoles(s[1..]);
      NoHolesMeansZero(s[1..]);
    }
  }

  ghost predicate AllNoHoles(parts: seq<string>)
  {
    forall i :: 0 <= i < |parts| ==> NoHoles(parts[i])
  }

  predicate WhereAligned(w: Where)
  {
    Holes(w.clause) == |w.args|
  }

  ghost predicate WheresAligned(ws: seq<Where>)
  {
    forall i :: 0 <= i < |ws| ==> WhereAligned(ws[i])
  }

  /** Conditions carry as many arguments as placeholders; nothing else has a placeholder. */
  ghost predicate Tidy(q: Query)
  {
    && NoHoles(q.table)
    && AllNoHoles(q.selects) && AllNoHoles(q.joins) && AllNoHoles(q.groupBys) && AllNoHoles(q.orderBys)
    && WheresAligned(q.wheres)
    && Holes(q.having) == |q.havingArgs|
    && Holes(q.rawSQL) == |q.rawArgs|
  }

  lemma {:induction false} JoinNoHoles(parts: seq<string>, sep: string)
    requires AllNoHoles(parts) && NoHoles(sep)
    ensures NoHoles(JoinWith(parts, sep))
  {
    if |parts| == 1 {
      assert NoHoles(parts[0]);
    } else if |parts| > 1 {
      JoinNoHoles(parts[..|parts| - 1], sep);
      assert NoHoles(parts[|parts| - 1]);
    }
  }

  lemma {:induction false} JoinsNoHoles(joins: seq<string>)
    requires AllNoHoles(joins)
    ensures NoHoles(Joins(joins))
  {
    if joins != [] {
      JoinsNoHoles(joins[..|joins| - 1]);
      assert NoHoles(joins[|joins| - 1]);
    }
  }

  lemma {:induction false} DoubledNoHoles(s: string, mark: char)
    requires NoHoles(s) && mark != '?'
    ensures NoHoles(Doubled(s, mark))
  {
    if s != "" {
      assert s[0] in s;
      assert NoHoles(s[1..]);
      DoubledNoHoles(s[1..], mark);
    }
  }

  lemma QuoteNoHoles(driver: Driver, s: string)
    requires NoHoles(s)
    ensures NoHoles(QuoteIdent(driver, s))
  {
    DoubledNoHoles(s, if driver.Postgres? then '\"' else '`');
  }

  lemma AlignedAppend(a: seq<Frag>, b: seq<Frag>)
    requires AllAligned(a) && AllAligned(b)
    ensures AllAligned(a + b)
  {
  }

  lemma OnlyAligned(s: string)
    requires NoHoles(s)
    ensures AllAligned(Only(s))
  {
    NoHolesMeansZero(s);
  }

  lemma {:induction false} WheresAreAligned(ws: seq<Where>)
    requires WheresAligned(ws)
    ensures AllAligned(WhereFrags(ws))
  {
    if ws != [] {
      var front, w := ws[..|ws| - 1], ws[|ws| - 1];
      WheresAreAligned(front);
      assert WhereAligned(w);
      OnlyAligned(Lead(front == [], w.or));
      OnlyAligned(")");
      AlignedThree(WhereFrags(front), Frag(Lead(front == [], w.or), []), Frag(w.clause, w.args), Frag(")", []));
    }
  }

  lemma AlignedThree(fs: seq<Frag>, a: Frag, b: Frag, c: Frag)
    requires AllAligned(fs) && AllAligned([a]) && AllAligned([c]) && Aligned(b)
    ensures AllAligned(fs + [a, b, c])
  {
    assert Aligned([a][0]) && Aligned([c][0]);
  }

  lemma FilterIsAligned(q: Query)
    requires WheresAligned(q.wheres)
    ensures AllAligned(FilterFrags(q))
  {
    WheresAreAligned(q.wheres);
    OnlyAligned(" WHERE ");
    OnlyAligned(" AND (");
    OnlyAligned(")");
    QuoteNoHoles(q.driver, "deleted_at");
    OnlyAligned(DeletedFilter(q.driver));
  }

  lemma CoreIsAligned(q: Query)
    requires Tidy(q)
    ensures AllAligned(CoreFrags(q))
  {
    QuoteNoHoles(q.driver, q.table);
    OnlyAligned(" FROM " + QuoteIdent(q.driver, q.table));
    JoinsNoHoles(q.joins);
    OnlyAligned(Joins(q.joins));
    FilterIsAligned(q);
    JoinNoHoles(q.groupBys, ", ");
    OnlyAligned(if q.groupBys == [] then "" else " GROUP BY " + JoinWith(q.groupBys, ", "));
    OnlyAligned(" HAVING ");
  }

  lemma TailNoHoles(q: Query)
    requires AllNoHoles(q.orderBys)
    ensures NoHoles(TailText(q))
  {
    JoinNoHoles(q.orderBys, ", ");
  }

  lemma SelectIsAligned(q: Query)
    requires Tidy(q)
    ensures AllAligned(SelectFrags(q))
  {
    JoinNoHoles(q.selects, ", ");
    OnlyAligned(Columns(q));
    CoreIsAligned(q);
    TailNoHoles(q);
    OnlyAligned(TailText(q));
    if q.rawSQL == "" {
      AlignedAppend(Only(Columns(q)), CoreFrags(q));
      AlignedAppend(Only(Columns(q)) + CoreFrags(q), Only(TailText(q)));
    } else {
      assert Aligned(Frag(q.rawSQL, q.rawArgs));
    }
  }

  lemma CountIsAligned(q: Query)
    requires Tidy(q)
    ensures AllAligned(CountFrags(q))
  {
    OnlyAligned("SELECT COUNT(*) FROM (");
    OnlyAligned(") AS _oni_count");
    assert NoHoles("1") && NoHoles("COUNT(*)");
    SelectIsAligned(Stripped(q));
    SelectIsAligned(q.(selects := ["COUNT(*)"]));
  }

  lemma {:induction false} SetIsAligned(driver: Driver, cols: seq<string>, vals: seq<Value>)
    requires |cols| == |vals| && AllNoHoles(cols)
    ensures AllAligned(SetFrags(driver, cols, vals))
  {
    if cols != [] {
      var n := |cols| - 1;
      SetIsAligned(driver, cols[..n], vals[..n]);
      assert NoHoles(cols[n]);
      QuoteNoHoles(driver, cols[n]);
      var name := (if n == 0 then "" else ", ") + QuoteIdent(driver, cols[n]);
      OnlyAligned(name);
      OneHole(" = ", "");
      assert " = " + "?" + "" == " = ?";
      var more := [Frag(name, []), Frag(" = ?", [vals[n]])];
      assert Only(name)[0] == more[0];
      assert Aligned(more[0]) && Aligned(more[1]);
      AlignedAppend(SetFrags(driver, cols[..n], vals[..n]), more);
    }
  }

  lemma OneHole(a: string, b: string)
    requires NoHoles(a) && NoHoles(b)
    ensures Holes(a + "?" + b) == 1
  {
    NoHolesMeansZero(a);
    NoHolesMeansZero(b);
    HolesAppend(a, "?");
    HolesAppend(a + "?", b);
  }

  lemma {:induction false} ValuesAreAligned(vals: seq<Value>)
    ensures AllAligned(ValueFrags(vals))
  {
    if vals != [] {
      var n := |vals| - 1;
      ValuesAreAligned(vals[..n]);
      OneHole("", "");
      OneHole(", ", "");
      assert "" + "?" + "" == "?" && ", " + "?" + "" == ", ?";
      var f := Frag(if n == 0 then "?" else ", ?", [vals[n]]);
      assert Aligned(f);
      AlignedAppend(ValueFrags(vals[..n]), [f]);
    }
  }

  lemma UpdateIsAligned(q: Query, cols: seq<string>, vals: seq<Value>)
    requires Tidy(q) && AllNoHoles(cols) && |cols| == |vals|
    ensures AllAligned(UpdateFrags(q, cols, vals))
  {
    QuoteNoHoles(q.driver, q.table);
    OnlyAligned("UPDATE " + QuoteIdent(q.driver, q.table) + " SET ");
    SetIsAligned(q.driver, cols, vals);
    OnlyAligned(" WHERE ");
    WheresAreAligned(q.wheres);
  }

  lemma DeleteIsAligned(q: Query, now: Value)
    requires Tidy(q)
    ensures AllAligned(DeleteFrags(q)) && AllAligned(DeleteStmtFrags(q, now))
  {
    QuoteNoHoles(q.driver, q.table);
    OnlyAligned("DELETE FROM " + QuoteIdent(q.driver, q.table));
    OnlyAligned(" WHERE ");
    WheresAreAligned(q.wheres);
    assert NoHoles("deleted_at");
    UpdateIsAligned(q, ["deleted_at"], [now]);
  }

  lemma InsertIsAligned(q: Query, cols: seq<string>, vals: seq<Value>)
    requires Tidy(q) && AllNoHoles(cols)
    ensures AllAligned(InsertFrags(q, cols, vals))
  {
    QuoteNoHoles(q.driver, q.table);
    forall i | 0 <= i < |cols| ensures NoHoles(Quoted(q.driver, cols)[i]) {
      assert NoHoles(cols[i]);
      QuoteNoHoles(q.driver, cols[i]);
    }
    JoinNoHoles(Quoted(q.driver, cols), ", ");
    var names := JoinWith(Quoted(q.driver, cols), ", ");
    OnlyAligned("INSERT INTO " + QuoteIdent(q.driver, q.table) + " (" + names + ") VALUES (");
    ValuesAreAligned(vals);
    OnlyAligned(")");
  }

  /** The statements the builder can produce. */
  datatype Statement =
    | Select
    | Count
    | Insert(cols: seq<string>, vals: seq<Value>)
    | Update(cols: seq<string>, vals: seq<Value>)
    | Delete(now: Value)
    | ForceDelete
  {
    ghost predicate Ok()
    {
      (Insert? || Update?) ==> |cols| == |vals| && AllNoHoles(cols)
    }
  }

  ghost function FragsOf(q: Query, st: Statement): seq<Frag>
    requires st.Ok()
  {
    match st
    case Select => SelectFrags(q)
    case Count => CountFrags(q)
    case Insert(cols, vals) => InsertFrags(q, cols, vals)
    case Update(cols, vals) => UpdateFrags(q, cols, vals)
    case Delete(now) => DeleteStmtFrags(q, now)
    case ForceDelete => DeleteFrags(q)
  }

  /**
   Every statement of a tidy builder has exactly as many placeholders as
   arguments, and binding them left to right puts each argument into the
   fragment it was given for.
   */
  lemma EveryStatementIsAligned(q: Query, st: Statement)
    requires Tidy(q) && st.Ok()
    ensures Holes(Texts(FragsOf(q, st))) == |Args(FragsOf(q, st))|
    ensures Bind(Texts(FragsOf(q, st)), Args(FragsOf(q, st))) == Bound(FragsOf(q, st))
  {
    match st {
      case Select => SelectIsAligned(q);
      case Count => CountIsAligned(q);
      case Insert(cols, vals) => InsertIsAligned(q, cols, vals);
      case Update(cols, vals) => UpdateIsAligned(q, cols, vals);
      case Delete(now) => DeleteIsAligned(q, now);
      case ForceDelete => DeleteIsAligned(q, 0);
    }
    ArgumentsLandInPlace(FragsOf(q, st));
  }
}
