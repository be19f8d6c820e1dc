/**
 The statements that the builder sends, as a server reads them: a SELECT and a
 count give back the clauses of the query, and a write its table, its assignments
 and its condition.
 */
module Statements {
  import opened Options
  import opened Seqs
  import opened Sql
  import opened Filters
  import opened Reading

  function ColumnText(q: Query): string
  {
    if q.selects == [] then "*" else JoinWith(q.selects, ", ")
  }

  /** The quoted table and the joins, with blanks between them. */
  function SourceText(q: Query): string
  {
    JoinWith([QuoteIdent(q.driver, q.table)] + q.joins, " ")
  }

  lemma {:induction false} JoinsSpell(name: string, joins: seq<string>)
    ensures JoinWith([name] + joins, " ") == name + Joins(joins)
  {
    if joins == [] {
      assert [name] + joins == [name] && name + "" == name;
    } else {
      var n := |joins| - 1;
      var all := [name] + joins;
      assert all[..|all| - 1] == [name] + joins[..n] && all[|all| - 1] == joins[n];
      JoinsSpell(name, joins[..n]);
      Assoc(name, Joins(joins[..n]) + " ", joins[n]);
      Assoc(name, Joins(joins[..n]), " ");
    }
  }

  function ListPart(parts: seq<string>): Option<Pieces>
  {
    if parts == [] then None else Some(Chars(JoinWith(parts, ", ")))
  }

  function NumberPart(n: int): Option<nat>
  {
    if n > 0 then Some(n) else None
  }

  /** The clauses that a query stands for. */
  function ClausesOf(q: Query): Clauses
  {
    Clauses(
      Chars(ColumnText(q)),
      Chars(SourceText(q)),
      if HasFilter(q) then Some(Condition(q)) else None,
      ListPart(q.groupBys),
      if q.having == "" then None else Some(Bind(q.having, q.havingArgs)),
      ListPart(q.orderBys),
      NumberPart(q.limit),
      NumberPart(q.offset))
  }

  /** What Add appends. */
  function Segment(k: Keyword, after: Option<Pieces>): Pieces
  {
    match after
    case None => []
    case Some(t) => Word(k) + t
  }

  lemma AddIsAppend(before: Pieces, k: Keyword, after: Option<Pieces>)
    ensures Add(before, k, after) == before + Segment(k, after)
  {
  }

  lemma WordSpells(k: Keyword, t: string)
    ensures Chars(" " + Spelling(k) + " " + t) == Word(k) + Chars(t)
  {
    assert " " + Spelling(k) + " " + t == " " + (Spelling(k) + (" " + t));
    CharsAppend(" ", Spelling(k) + (" " + t));
    CharsAppend(Spelling(k), " " + t);
    CharsAppend(" ", t);
    assert Chars(" ") == BLANK;
    Assoc(BLANK, Chars(Spelling(k)), BLANK + Chars(t));
    Assoc(BLANK + Chars(Spelling(k)), BLANK, Chars(t));
  }

  lemma BySpells(k: Keyword, t: string)
    ensures Chars(" " + Spelling(k) + " BY " + t) == Word(k) + (Chars("BY") + BLANK + Chars(t))
  {
    assert " " + Spelling(k) + " BY " + t == " " + Spelling(k) + " " + ("BY " + t);
    WordSpells(k, "BY " + t);
    assert Chars("BY " + t) == Chars("BY") + BLANK + Chars(t);
  }

  lemma ListSpells(k: Keyword, parts: seq<string>)
    ensures Chars(if parts == [] then "" else " " + Spelling(k) + " BY " + JoinWith(parts, ", "))
         == Segment(k, WithBy(ListPart(parts)))
  {
    BySpells(k, JoinWith(parts, ", "));
  }

  lemma NumberSpells(k: Keyword, n: int)
    ensures Chars(if n > 0 then " " + Spelling(k) + " " + Decimal(n) else "")
         == Segment(k, WriteNumber(NumberPart(n)))
  {
    if n > 0 {
      WordSpells(k, Decimal(n));
    }
  }

  lemma TailSpells(q: Query)
    ensures Chars(TailText(q)) ==
            Segment(ORDER, WithBy(ListPart(q.orderBys)))
            + Segment(LIMIT, WriteNumber(NumberPart(q.limit)))
            + Segment(OFFSET, WriteNumber(NumberPart(q.offset)))
  {
    ListSpells(ORDER, q.orderBys);
    NumberSpells(LIMIT, q.limit);
    NumberSpells(OFFSET, q.offset);
    var order := if q.orderBys == [] then "" else " " + Spelling(ORDER) + " BY " + JoinWith(q.orderBys, ", ");
    var limit := if q.limit > 0 then " " + Spelling(LIMIT) + " " + Decimal(q.limit) else "";
    var offset := if q.offset > 0 then " " + Spelling(OFFSET) + " " + Decimal(q.offset) else "";
    TailIs(q);
    assert TailText(q) == order + limit + offset;
    CharsAppend(order + limit, offset);
    CharsAppend(order, limit);
  }

  lemma TailIs(q: Query)
    ensures TailText(q) ==
      (if q.orderBys == [] then "" else " " + Spelling(ORDER) + " BY " + JoinWith(q.orderBys, ", "))
      + (if q.limit > 0 then " " + Spelling(LIMIT) + " " + Decimal(q.limit) else "")
      + (if q.offset > 0 then " " + Spelling(OFFSET) + " " + Decimal(q.offset) else "")
  {
    assert " " + "ORDER" + " BY " == " ORDER BY ";
    assert " " + "LIMIT" + " " == " LIMIT ";
    assert " " + "OFFSET" + " " == " OFFSET ";
  }

  lemma GroupSpells(q: Query)
    ensures Bound(GroupFrags(q)) == Segment(GROUP, WithBy(ListPart(q.groupBys))) + Segment(HAVING, ClausesOf(q).having)
  {
    GroupListSpells(q.groupBys);
    var list := Only(if q.groupBys == [] then "" else " GROUP BY " + JoinWith(q.groupBys, ", "));
    if q.having == "" {
      assert GroupFrags(q) == list;
      Whole(Segment(GROUP, WithBy(ListPart(q.groupBys))));
    } else {
      HavingSpells(q.having, q.havingArgs);
      BoundAppend(list, Only(" HAVING ") + [Frag(q.having, q.havingArgs)]);
    }
  }

  lemma GroupListSpells(parts: seq<string>)
    ensures Bound(Only(if parts == [] then "" else " GROUP BY " + JoinWith(parts, ", ")))
         == Segment(GROUP, WithBy(ListPart(parts)))
  {
    GroupWord();
    ListSpells(GROUP, parts);
    BoundOnly(if parts == [] then "" else " GROUP BY " + JoinWith(parts, ", "));
  }

  lemma GroupWord()
    ensures " GROUP BY " == " " + Spelling(GROUP) + " BY "
  {
  }

  lemma HavingSpells(having: string, args: seq<Value>)
    ensures Bound(Only(" HAVING ") + [Frag(having, args)]) == Segment(HAVING, Some(Bind(having, args)))
  {
    BoundAppend(Only(" HAVING "), [Frag(having, args)]);
    BoundOnly(" HAVING ");
    BoundOne(Frag(having, args));
    HavingWord();
  }

  lemma HavingWord()
    ensures Chars(" HAVING ") == Word(HAVING)
  {
  }

  lemma FromSpells(q: Query)
    ensures Bound(FromFrags(q)) == Segment(FROM, Some(Chars(SourceText(q))))
  {
    var name := QuoteIdent(q.driver, q.table);
    JoinsSpell(name, q.joins);
    TwoTexts(" FROM " + name, Joins(q.joins));
    FromText(name, Joins(q.joins));
    WordSpells(FROM, SourceText(q));
  }

  lemma TwoTexts(a: string, b: string)
    ensures Bound(Only(a) + Only(b)) == Chars(a + b)
  {
    BoundAppend(Only(a), Only(b));
    BoundOnly(a);
    BoundOnly(b);
    CharsAppend(a, b);
  }

  lemma FromText(name: string, joins: string)
    ensures " FROM " + name + joins == " " + Spelling(FROM) + " " + (name + joins)
  {
    assert " FROM " == " " + Spelling(FROM) + " ";
  }

  lemma WhereSpells(q: Query)
    ensures Bound(FilterFrags(q)) == Segment(WHERE, ClausesOf(q).where)
  {
    FilterSpells(q);
    WhereWord();
  }

  lemma WhereWord()
    ensures Chars(" WHERE ") == Word(WHERE)
  {
  }

  lemma ColumnsSpell(q: Query)
    ensures Chars(Columns(q)) == Chars("SELECT") + BLANK + Chars(ColumnText(q))
  {
    assert Columns(q) == "SELECT " + ColumnText(q);
    assert Chars(Columns(q)) == Chars("SELECT") + BLANK + Chars(ColumnText(q));
  }

  lemma SelectParts(q: Query)
    requires q.rawSQL == ""
    ensures Bound(SelectFrags(q)) ==
            Chars(Columns(q)) + (Bound(FromFrags(q)) + Bound(FilterFrags(q)) + Bound(GroupFrags(q)))
            + Chars(TailText(q))
  {
    BoundOnly(Columns(q));
    BoundOnly(TailText(q));
    BoundAppend(FromFrags(q), FilterFrags(q));
    BoundAppend(FromFrags(q) + FilterFrags(q), GroupFrags(q));
    BoundAppend(Only(Columns(q)), CoreFrags(q));
    BoundAppend(Only(Columns(q)) + CoreFrags(q), Only(TailText(q)));
  }

  lemma Chain7<T>(s: seq<T>, f: seq<T>, w: seq<T>, g: seq<T>, h: seq<T>, o: seq<T>, l: seq<T>, e: seq<T>)
    ensures s + (f + w + (g + h)) + (o + l + e) == s + f + w + g + h + o + l + e
  {
  }

  /** The statement that buildSelect writes is one with the clauses of its query. */
  lemma SelectSpells(q: Query)
    requires q.rawSQL == ""
    ensures Bound(SelectFrags(q)) == Write(ClausesOf(q))
  {
    var c := ClausesOf(q);
    SelectParts(q);
    ColumnsSpell(q);
    FromSpells(q);
    WhereSpells(q);
    GroupSpells(q);
    TailSpells(q);
    Chain7(Chars("SELECT") + BLANK + c.columns, Segment(FROM, Some(c.source)), Segment(WHERE, c.where),
           Segment(GROUP, WithBy(c.group)), Segment(HAVING, c.having), Segment(ORDER, WithBy(c.order)),
           Segment(LIMIT, WriteNumber(c.limit)), Segment(OFFSET, WriteNumber(c.offset)));
    WriteIsSegments(c);
  }

  lemma WriteIsSegments(c: Clauses)
    ensures Write(c) ==
            Chars("SELECT") + BLANK + c.columns + Segment(FROM, Some(c.source)) + Segment(WHERE, c.where)
            + Segment(GROUP, WithBy(c.group)) + Segment(HAVING, c.having) + Segment(ORDER, WithBy(c.order))
            + Segment(LIMIT, WriteNumber(c.limit)) + Segment(OFFSET, WriteNumber(c.offset))
  {
    AddIsAppend(Chars("SELECT") + BLANK + c.columns, FROM, Some(c.source));
    AddIsAppend(UpToFrom(c), WHERE, c.where);
    AddIsAppend(Add(UpToFrom(c), WHERE, c.where), GROUP, WithBy(c.group));
    AddIsAppend(UpToGroup(c), HAVING, c.having);
    AddIsAppend(Add(UpToGroup(c), HAVING, c.having), ORDER, WithBy(c.order));
    AddIsAppend(UpToOrder(c), LIMIT, WriteNumber(c.limit));
    AddIsAppend(Add(UpToOrder(c), LIMIT, WriteNumber(c.limit)), OFFSET, WriteNumber(c.offset));
  }

  // --------------------------------------------------------------- names

  /** How a server reads a quoted name, from behind its opening mark: the name, and what follows it. */
  function NameThenRest(s: string, mark: char): (string, string)
    decreases |s|
  {
    if s == "" then ("", "")
    else if s[0] != mark then var (name, rest) := NameThenRest(s[1..], mark); ([s[0]] + name, rest)
    else if |s| > 1 && s[1] == mark then var (name, rest) := NameThenRest(s[2..], mark); ([mark] + name, rest)
    else ("", s[1..])
  }

  lemma {:induction false} DoubledReadsBack(name: string, mark: char, rest: string)
    requires rest == "" || rest[0] != mark
    ensures NameThenRest(Doubled(name, mark) + ([mark] + rest), mark) == (name, rest)
  {
    var end := [mark] + rest;
    var s := Doubled(name, mark) + end;
    if name == "" {
      assert s == end && s[1..] == rest;
    } else {
      var tail := Doubled(name[1..], mark) + end;
      DoubledReadsBack(name[1..], mark, rest);
      assert name == [name[0]] + name[1..];
      if name[0] == mark {
        assert s[..2] == [mark, mark] && s[2..] == tail;
      } else {
        assert s[1..] == tail;
      }
    }
  }

  /** Whatever a name holds, quote marks included, the server reads back that name and stops behind it. */
  lemma QuotedReadsBack(driver: Driver, name: string, rest: string)
    requires var mark := if driver.Postgres? then '\"' else '`'; rest == "" || rest[0] != mark
    ensures var mark := if driver.Postgres? then '\"' else '`'; var s := QuoteIdent(driver, name) + rest;
      s[0] == mark && NameThenRest(s[1..], mark) == (name, rest)
  {
    var mark := if driver.Postgres? then '\"' else '`';
    DoubledReadsBack(name, mark, rest);
    assert (QuoteIdent(driver, name) + rest)[1..] == Doubled(name, mark) + ([mark] + rest);
  }

  // ------------------------------------------------------ reading it back

  /** The caller's texts are legible, and the parentheses of the conditions pair up. */
  ghost predicate LegibleQuery(q: Query)
  {
    && Legible(Chars(ColumnText(q))) && Legible(Chars(SourceText(q))) && AllBalanced(q.wheres)
    && LegiblePart(ClausesOf(q).group) && LegiblePart(ClausesOf(q).having) && LegiblePart(ClausesOf(q).order)
  }

  lemma InertAround(a: Pieces, v: string, b: Pieces, k: Keyword)
    requires Inert(a, k) && Inert(b, k) && IsToken(v) && v != Spelling(k)
    ensures Inert(a + (Chars(" " + v + " ") + b), k)
  {
    InertPlain(v, k);
    InertJoin(a, Chars(v), k);
    InertJoin(a + BLANK + Chars(v), b, k);
    WordBetween(a, v, b);
  }

  lemma WordBetween(a: Pieces, v: string, b: Pieces)
    ensures a + (Chars(" " + v + " ") + b) == a + BLANK + Chars(v) + BLANK + b
  {
    assert Chars(" " + v + " ") == BLANK + Chars(v) + BLANK;
    Regroup(a, BLANK, Chars(v), b);
  }

  lemma Regroup(a: Pieces, blank: Pieces, v: Pieces, b: Pieces)
    ensures a + (blank + v + blank + b) == a + blank + v + blank + b
  {
  }

  lemma SepIsWord(or: bool)
    ensures Sep(or) == Chars(" " + (if or then "OR" else "AND") + " ")
  {
  }

  lemma SepAround(a: Pieces, or: bool, b: Pieces, k: Keyword)
    requires Inert(a, k) && Inert(b, k)
    ensures Inert(a + (Sep(or) + b), k)
  {
    var v := if or then "OR" else "AND";
    assert |v| == |Spelling(k)| ==> v[0] != Spelling(k)[0];
    SepIsWord(or);
    InertAround(a, v, b, k);
  }

  lemma {:induction false} ChainInert(ws: seq<Where>, k: Keyword)
    requires ws != [] && AllBalanced(ws)
    ensures Inert(ChainText(ws), k)
  {
    InertGroup(Clause(ws[0]), k);
    if |ws| > 1 {
      ChainInert(ws[1..], k);
      SepAround(Group(Clause(ws[0])), ws[1].or, ChainText(ws[1..]), k);
      Assoc(Group(Clause(ws[0])), Sep(ws[1].or), ChainText(ws[1..]));
    }
  }

  /** A name between quotes is no keyword. */
  lemma QuotedInert(driver: Driver, name: string, k: Keyword)
    requires IsToken(name)
    ensures Inert(Chars(QuoteIdent(driver, name)), k)
  {
    var mark := if driver.Postgres? then '\"' else '`';
    DoubledToken(name, mark);
    var v := QuoteIdent(driver, name);
    assert v == [mark] + Doubled(name, mark) + [mark];
    assert v[0] == mark != Spelling(k)[0];
    InertPlain(v, k);
  }

  predicate NoBreaks(s: string)
  {
    forall i :: 0 <= i < |s| ==> s[i] != ' ' && s[i] != '(' && s[i] != ')'
  }

  lemma {:induction false} DoubledToken(s: string, mark: char)
    requires NoBreaks(s) && NoBreaks([mark])
    ensures NoBreaks(Doubled(s, mark))
  {
    if s != "" {
      assert [mark][0] == mark;
      DoubledToken(s[1..], mark);
    }
  }

  lemma DeletedInert(driver: Driver, k: Keyword)
    ensures Inert(Deleted(driver), k)
  {
    QuotedInert(driver, "deleted_at", k);
    IsNullIsToken(k);
    InertPlain("NULL", k);
    InertAround(Chars(QuoteIdent(driver, "deleted_at")), "IS", Chars("NULL"), k);
    DeletedSpells(driver);
  }

  lemma IsNullIsToken(k: Keyword)
    ensures IsToken("IS") && IsToken("NULL") && "IS" != Spelling(k) && "NULL" != Spelling(k)
  {
    assert "NULL"[0] != Spelling(k)[0];
  }

  lemma DeletedSpells(driver: Driver)
    ensures Deleted(driver) == Chars(QuoteIdent(driver, "deleted_at")) + (Chars(" " + "IS" + " ") + Chars("NULL"))
  {
    assert " IS NULL" == " " + "IS" + " " + "NULL";
    CharsAppend(" " + "IS" + " ", "NULL");
    CharsAppend(QuoteIdent(driver, "deleted_at"), " IS NULL");
  }

  lemma ConditionInert(q: Query, k: Keyword)
    requires HasFilter(q) && AllBalanced(q.wheres)
    ensures Inert(Condition(q), k)
  {
    DeletedInert(q.driver, k);
    if q.wheres != [] {
      ChainInert(q.wheres, k);
      ChainBalanced(q.wheres);
      InertGroup(ChainText(q.wheres), k);
      SepAround(Deleted(q.driver), false, Group(ChainText(q.wheres)), k);
    }
  }

  lemma ClausesAreLegible(q: Query)
    requires LegibleQuery(q)
    ensures AllLegible(ClausesOf(q))
  {
    if HasFilter(q) {
      forall k ensures Inert(Condition(q), k) {
        ConditionInert(q, k);
      }
    }
  }

  /** What buildSelect sends for a query reads back as the clauses of the query. */
  lemma SelectReadsBack(q: Query)
    requires q.rawSQL == "" && LegibleQuery(q)
    ensures Read(Bound(SelectFrags(q))) == ClausesOf(q)
  {
    SelectSpells(q);
    ClausesAreLegible(q);
    ReadsBack(ClausesOf(q));
  }

  const COUNT: string := "COUNT(*)"

  /** SELECT COUNT(*) of another statement as a table. */
  function Derived(inner: Pieces): Clauses
  {
    Clauses(Chars(COUNT), Group(inner) + Chars(" AS _oni_count"), None, None, None, None, None, None)
  }

  lemma ColumnIsLegible(t: string)
    requires t == "1" || t == COUNT || t == "*"
    ensures Legible(Chars(t))
  {
    forall k ensures Inert(Chars(t), k) {
      var p := Chars(t);
      if t == COUNT {
        assert p == Chars("COUNT") + Group([Ch('*')]);
        NoParenBalanced(Chars("COUNT"));
        NoParenBalanced([Ch('*')]);
        GroupBalanced([Ch('*')]);
        BalancedThrough(Chars("COUNT"), 0, Group([Ch('*')]), 0);
      } else {
        NoParenBalanced(p);
      }
      assert t[0] != Spelling(k)[0];
      if p == Chars(Spelling(k)) {
        SameChars(t, Spelling(k));
      }
      InertToken(p, k);
    }
  }

  lemma DerivedIsLegible(inner: Pieces)
    requires Balanced(inner, 0)
    ensures AllLegible(Derived(inner))
  {
    ColumnIsLegible(COUNT);
    forall k ensures Inert(Group(inner) + Chars(" AS _oni_count"), k) {
      DerivedSourceInert(inner, k);
    }
  }

  lemma DerivedSourceInert(inner: Pieces, k: Keyword)
    requires Balanced(inner, 0)
    ensures Inert(Group(inner) + Chars(" AS _oni_count"), k)
  {
    AliasIsToken(k);
    InertGroup(inner, k);
    InertPlain("_oni_count", k);
    InertAround(Group(inner), "AS", Chars("_oni_count"), k);
    AliasSpells();
  }

  lemma AliasIsToken(k: Keyword)
    ensures IsToken("AS") && "AS" != Spelling(k) && IsToken("_oni_count") && "_oni_count" != Spelling(k)
  {
    assert "_oni_count"[0] != Spelling(k)[0];
  }

  lemma AliasSpells()
    ensures Chars(" AS _oni_count") == Chars(" " + "AS" + " ") + Chars("_oni_count")
  {
  }

  lemma WriteIsBalanced(c: Clauses)
    requires AllLegible(c)
    ensures Balanced(Write(c), 0)
  {
    UpToOrderInert(c, LIMIT);
    InertNumber(c.limit, SET);
    InertNumber(c.offset, SET);
    AddBalanced(UpToOrder(c), LIMIT, WriteNumber(c.limit));
    AddBalanced(Add(UpToOrder(c), LIMIT, WriteNumber(c.limit)), OFFSET, WriteNumber(c.offset));
  }

  lemma AddBalanced(before: Pieces, k: Keyword, after: Option<Pieces>)
    requires Balanced(before, 0) && (after.Some? ==> Balanced(after.value, 0))
    ensures Balanced(Add(before, k, after), 0)
  {
    if after.Some? {
      KeywordsAreTokens(k);
      NoParenBalanced(Word(k));
      BalancedThrough(Word(k), 0, after.value, 0);
      BalancedThrough(before, 0, Word(k) + after.value, 0);
    }
  }

  lemma DerivedSpells(fs: seq<Frag>)
    ensures Bound(Only("SELECT COUNT(*) FROM (") + fs + Only(") AS _oni_count")) == Write(Derived(Bound(fs)))
  {
    var head, tail := "SELECT COUNT(*) FROM (", ") AS _oni_count";
    BoundOnly(head);
    BoundOnly(tail);
    BoundAppend(Only(head), fs);
    BoundAppend(Only(head) + fs, Only(tail));
    DerivedText(Bound(fs));
  }

  lemma DerivedText(inner: Pieces)
    ensures Chars("SELECT COUNT(*) FROM (") + inner + Chars(") AS _oni_count") == Write(Derived(inner))
  {
    CountHead();
    CountTail();
    Wrapped(Chars("SELECT") + BLANK + Chars(COUNT), Word(FROM), inner, Chars(" AS _oni_count"));
  }

  lemma CountHead()
    ensures Chars("SELECT COUNT(*) FROM (") == Chars("SELECT") + BLANK + Chars(COUNT) + (Word(FROM) + [Ch('(')])
  {
  }

  lemma CountTail()
    ensures Chars(") AS _oni_count") == [Ch(')')] + Chars(" AS _oni_count")
  {
  }

  lemma Wrapped(a: Pieces, w: Pieces, inner: Pieces, t: Pieces)
    ensures a + (w + [Ch('(')]) + inner + ([Ch(')')] + t) == a + (w + (Group(inner) + t))
  {
  }

  /** The statement inside a derived count shows a constant for each row or group. */
  function Inner(q: Query): Clauses
  {
    ClausesOf(q).(columns := Chars("1"), order := None, limit := None, offset := None)
  }

  lemma InnerReadsBack(q: Query)
    requires q.rawSQL == "" && LegibleQuery(q)
    ensures Bound(SelectFrags(Stripped(q))) == Write(Inner(q))
    ensures AllLegible(Inner(q)) && Read(Write(Inner(q))) == Inner(q)
  {
    ColumnIsLegible("1");
    var inner := Stripped(q);
    assert ClausesOf(inner) == Inner(q);
    SelectSpells(inner);
    ClausesAreLegible(inner);
    ReadsBack(Inner(q));
  }

  lemma DerivedReadsBack(q: Query)
    requires q.rawSQL == "" && LegibleQuery(q) && q.groupBys != []
    ensures Read(Bound(CountFrags(q))) == Derived(Write(Inner(q)))
  {
    InnerReadsBack(q);
    DerivedSpells(SelectFrags(Stripped(q)));
    WriteIsBalanced(Inner(q));
    DerivedIsLegible(Write(Inner(q)));
    ReadsBack(Derived(Write(Inner(q))));
  }

  lemma OneColumnClauses(q: Query, column: string)
    requires LegibleQuery(q) && Legible(Chars(column))
    ensures ClausesOf(q.(selects := [column])) == ClausesOf(q).(columns := Chars(column))
    ensures LegibleQuery(q.(selects := [column]))
  {
  }

  lemma RowCountReadsBack(q: Query)
    requires q.rawSQL == "" && LegibleQuery(q) && q.groupBys == []
    ensures Read(Bound(CountFrags(q))) == ClausesOf(q).(columns := Chars(COUNT))
  {
    ColumnIsLegible(COUNT);
    OneColumnClauses(q, COUNT);
    SelectReadsBack(q.(selects := [COUNT]));
  }

  /** The count statement reads back as COUNT(*) of the query's rows, or of the query as a table when it is grouped. */
  lemma CountReadsBack(q: Query)
    requires q.rawSQL == "" && LegibleQuery(q)
    ensures Read(Bound(CountFrags(q))) ==
            if q.groupBys != [] then Derived(Write(Inner(q))) else ClausesOf(q).(columns := Chars(COUNT))
    ensures Read(Write(Inner(q))) == Inner(q)
  {
    InnerReadsBack(q);
    if q.groupBys != [] {
      DerivedReadsBack(q);
    } else {
      RowCountReadsBack(q);
    }
  }

  /** A plain table query is legible: a one-word table and conditions whose parentheses pair up. */
  lemma TableQueryIsLegible(q: Query)
    requires IsToken(q.table) && AllBalanced(q.wheres)
    requires q.selects == [] && q.joins == [] && q.groupBys == [] && q.having == "" && q.orderBys == []
    ensures LegibleQuery(q)
  {
    ColumnIsLegible("*");
    assert [QuoteIdent(q.driver, q.table)] + q.joins == [QuoteIdent(q.driver, q.table)];
    forall k ensures Inert(Chars(SourceText(q)), k) {
      QuotedInert(q.driver, q.table, k);
    }
  }
}
