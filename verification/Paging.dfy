/**
 Pagination: a COUNT from a clone of the builder, a SELECT with LIMIT and OFFSET
 from the builder itself, and the page arithmetic on top. The server reads the
 clauses of each statement off its bound text and obeys one law for each of them.
 */
module Paging {
  import opened Sql
  import opened Builders
  import opened Options
  import opened Placeholders
  import opened Filters
  import opened Reading
  import opened Statements

  datatype Page<R> = Page(
    items: seq<R>,
    total: int,
    perPage: int,
    currentPage: int,
    lastPage: int,
    from: int,
    to: int)

  function Min(a: int, b: int): int
  {
    if a < b then a else b
  }

  /** LIMIT and OFFSET on a result. */
  function Slice<R>(rows: seq<R>, limit: nat, offset: nat): seq<R>
  {
    rows[Min(offset, |rows|)..Min(offset + limit, |rows|)]
  }

  function PageNo(page: int): (p: int)
    ensures p >= 1
  {
    if page < 1 then 1 else page
  }

  function PageSize(perPage: int): (n: int)
    ensures n >= 1
  {
    if perPage < 1 then 15 else perPage
  }

  lemma OffsetIsNat(p: int, n: int)
    requires p >= 1 && n >= 1
    ensures (p - 1) * n >= 0
    ensures p * n == (p - 1) * n + n
  {
  }

  /** Pages needed for total rows, at least one. */
  function LastPage(total: nat, n: int): (last: int)
    requires n >= 1
    ensures last >= 1
    ensures last * n >= total
    ensures last > 1 ==> (last - 1) * n < total
  {
    var last := total / n + if total % n != 0 then 1 else 0;
    assert total == n * (total / n) + total % n;
    if last < 1 then 1 else last
  }

  /** A page of a result, under a given total. */
  function PageWith<R>(rows: seq<R>, total: nat, page: int, perPage: int): Page<R>
  {
    var p, n := PageNo(page), PageSize(perPage);
    OffsetIsNat(p, n);
    Page(Slice(rows, n, (p - 1) * n), total, n, p, LastPage(total, n),
         if total == 0 then 0 else (p - 1) * n + 1,
         if total == 0 then 0 else Min(p * n, total))
  }

  /** A page of a whole result. */
  function PageOf<R>(rows: seq<R>, page: int, perPage: int): Page<R>
  {
    PageWith(rows, |rows|, page, perPage)
  }

  // -------------------------------------------------------------- server

  /**
   A database at one moment. It reads a statement's clauses off the bound text and
   answers by them. understands: which clauses, without columns, order and page, make
   sense to it. plain: which columns and orders give one output row for each row or
   group (no DISTINCT, no aggregate over all of it). source: the rows that FROM and
   JOIN make. atom: one bound condition on one row. groups: what GROUP BY and HAVING
   make of the rows kept. present: a selected row under a column list.
   */
  datatype Server<!S, !R> = Server(
    understands: Clauses -> bool,
    plain: (Clauses, Pieces, Option<Pieces>) -> bool,
    source: Pieces -> seq<S>,
    atom: (S, Pieces) -> bool,
    groups: (Option<Pieces>, Option<Pieces>, seq<S>) -> seq<S>,
    present: (Pieces, S) -> R,
    select: Clauses -> seq<R>,
    count: Clauses -> nat)

  /** The clauses that say which rows a statement is about. */
  function CoreOf(c: Clauses): Clauses
  {
    c.(columns := [], order := None, limit := None, offset := None)
  }

  /** All rows of a core, under a column list, in some order. */
  function Shown(c: Clauses, s: Pieces, o: Option<Pieces>): Clauses
  {
    c.(columns := s, order := o, limit := None, offset := None)
  }

  function Core(q: Query): Clauses
  {
    CoreOf(ClausesOf(q))
  }

  /** A table query whose texts the server reads as the clauses they stand for. */
  ghost predicate Understands<S, R>(sv: Server<S, R>, q: Query)
  {
    q.rawSQL == "" && q.rawArgs == [] && LegibleQuery(q) && sv.understands(Core(q))
  }

  predicate Plain<S, R>(sv: Server<S, R>, q: Query)
  {
    sv.plain(Core(q), ClausesOf(q).columns, ClausesOf(q).order)
  }

  function AtomOf<S, R>(sv: Server<S, R>, r: S): Pieces -> bool
  {
    p => sv.atom(r, p)
  }

  /** The WHERE clause, if there is one, holds for the row. */
  predicate Keeps<S, R>(sv: Server<S, R>, c: Clauses, r: S)
  {
    c.where.Some? ==> EvalOr(c.where.value, AtomOf(sv, r))
  }

  function Filtered<S, R>(sv: Server<S, R>, c: Clauses, rows: seq<S>): seq<S>
  {
    if rows == [] then []
    else
      var last := rows[|rows| - 1];
      Filtered(sv, c, rows[..|rows| - 1]) + if Keeps(sv, c, last) then [last] else []
  }

  /** The rows that pass the WHERE clause. */
  function Kept<S, R>(sv: Server<S, R>, c: Clauses): seq<S>
  {
    Filtered(sv, c, sv.source(c.source))
  }

  /** The rows or groups that a statement is about. */
  function Selected<S, R>(sv: Server<S, R>, c: Clauses): seq<S>
  {
    if c.group.None? && c.having.None? then Kept(sv, c) else sv.groups(c.group, c.having, Kept(sv, c))
  }

  function Presented<S, R>(sv: Server<S, R>, s: Pieces, rows: seq<S>): (out: seq<R>)
    ensures |out| == |rows|
  {
    seq(|rows|, i requires 0 <= i < |rows| => sv.present(s, rows[i]))
  }

  /** A plain column list shows each selected row once, in some order. */
  ghost predicate SelectLaw<S(!new), R(!new)>(sv: Server<S, R>, c: Clauses)
  {
    forall s, o :: sv.plain(c, s, o) ==>
      multiset(sv.select(Shown(c, s, o))) == multiset(Presented(sv, s, Selected(sv, c)))
  }

  /** LIMIT and OFFSET cut the result. */
  ghost predicate PageLaw<S(!new), R(!new)>(sv: Server<S, R>, c: Clauses)
  {
    forall s, o, limit: nat, offset: Option<nat> :: sv.plain(c, s, o) ==>
      sv.select(Shown(c, s, o).(limit := Some(limit), offset := offset)) ==
      Slice(sv.select(Shown(c, s, o)), limit, if offset.Some? then offset.value else 0)
  }

  /**
   COUNT(*) without GROUP BY counts the rows kept. HAVING then decides about the
   one group of them all: there is one row to select or none, and with none to
   select there is no count to scan, so the caller's 0 stays.
   */
  ghost predicate CountLaw<S(!new), R(!new)>(sv: Server<S, R>, c: Clauses)
  {
    c.group.None? ==>
      && (c.having.Some? ==> |Selected(sv, c)| <= 1)
      && sv.count(Shown(c, Chars(COUNT), None)) ==
         if c.having.Some? && Selected(sv, c) == [] then 0 else |Kept(sv, c)|
  }

  /** COUNT(*) over a derived table counts the rows of the statement inside. */
  ghost predicate DerivedLaw<S(!new), R(!new)>(sv: Server<S, R>, c: Clauses)
  {
    forall inner: Pieces :: ShowsAll(sv, c, Read(inner)) ==> sv.count(Derived(inner)) == |sv.select(Read(inner))|
  }

  ghost predicate ShowsAll<S, R>(sv: Server<S, R>, c: Clauses, d: Clauses)
  {
    d == Shown(c, d.columns, d.order) && sv.plain(c, d.columns, d.order)
  }

  /** A chain in parentheses behind the guard against deleted rows is read as the chain. */
  ghost predicate ParenthesesLaw<S(!new), R(!new)>(sv: Server<S, R>, c: Clauses)
  {
    forall driver, ws, r :: Guarded(c, driver, ws) ==> ReadsParentheses(ws, AtomOf(sv, r))
  }

  ghost predicate Guarded(c: Clauses, driver: Driver, ws: seq<Where>)
  {
    ws != [] && AllBalanced(ws) && c.where == Some(Deleted(driver) + (AND + Group(ChainText(ws))))
  }

  ghost predicate ObeysOn<S(!new), R(!new)>(sv: Server<S, R>, c: Clauses)
  {
    SelectLaw(sv, c) && PageLaw(sv, c) && CountLaw(sv, c) && DerivedLaw(sv, c) && ParenthesesLaw(sv, c)
  }

  /** The laws hold on every core that the server understands; a constant is shown once for each group. */
  ghost predicate Lawful<S(!new), R(!new)>(sv: Server<S, R>)
  {
    forall c :: sv.understands(c) && c == CoreOf(c) ==>
      ObeysOn(sv, c) && (c.group.Some? ==> sv.plain(c, Chars("1"), None))
  }

  /** What the server answers to a statement that it has read. */
  function Rows<S, R>(sv: Server<S, R>, q: Query): seq<R>
  {
    sv.select(Read(Bound(SelectFrags(q))))
  }

  // ------------------------------------------------- which rows are meant

  /** Not deleted, unless trashed rows are asked for, and some alternative of the chain holds. */
  ghost predicate Wanted<S, R>(sv: Server<S, R>, q: Query, r: S)
  {
    && (Live(q) ==> sv.atom(r, Deleted(q.driver)))
    && (q.wheres != [] ==> ChainHolds(q.wheres, AtomOf(sv, r)))
  }

  ghost function WantedOf<S, R>(sv: Server<S, R>, q: Query, rows: seq<S>): seq<S>
  {
    if rows == [] then []
    else
      var last := rows[|rows| - 1];
      WantedOf(sv, q, rows[..|rows| - 1]) + if Wanted(sv, q, last) then [last] else []
  }

  lemma KeepsWanted<S(!new), R(!new)>(sv: Server<S, R>, q: Query, r: S)
    requires AllBalanced(q.wheres) && ParenthesesLaw(sv, Core(q))
    ensures Keeps(sv, Core(q), r) <==> Wanted(sv, q, r)
  {
    if HasFilter(q) {
      if Live(q) && q.wheres != [] {
        assert Guarded(Core(q), q.driver, q.wheres);
      }
      FilterMeansLiveAndChain(q, AtomOf(sv, r));
    }
  }

  lemma {:induction false} FilteredAreWanted<S(!new), R(!new)>(sv: Server<S, R>, q: Query, rows: seq<S>)
    requires AllBalanced(q.wheres) && ParenthesesLaw(sv, Core(q))
    ensures Filtered(sv, Core(q), rows) == WantedOf(sv, q, rows)
  {
    if rows != [] {
      FilteredAreWanted(sv, q, rows[..|rows| - 1]);
      KeepsWanted(sv, q, rows[|rows| - 1]);
    }
  }

  /** On a table query without grouping, the whole result is the wanted rows of the source, each once. */
  lemma ResultIsWantedRows<S(!new), R(!new)>(sv: Server<S, R>, q: Query)
    requires Lawful(sv) && Understands(sv, q) && Plain(sv, q)
    requires q.groupBys == [] && q.having == ""
    ensures multiset(Rows(sv, Base(q))) ==
            multiset(Presented(sv, Chars(ColumnText(q)), WantedOf(sv, q, sv.source(Chars(SourceText(q))))))
  {
    var c := Core(q);
    assert ObeysOn(sv, c);
    FilteredAreWanted(sv, q, sv.source(c.source));
    RowsAreShown(sv, q);
  }

  lemma RowsAreShown<S(!new), R(!new)>(sv: Server<S, R>, q: Query)
    requires q.rawSQL == "" && LegibleQuery(q)
    ensures Rows(sv, Base(q)) == sv.select(Shown(Core(q), ClausesOf(q).columns, ClausesOf(q).order))
  {
    SelectReadsBack(Base(q));
  }

  /** The statement as the server reads it after renumbering. */
  method Send(driver: Driver, sql: string, args: seq<Value>) returns (pieces: seq<Piece>)
    ensures pieces == if driver.Postgres? then BindDollar(Numbered(sql, 0), args) else Bind(sql, args)
  {
    var out, outArgs := NormalizePlaceholders(driver, sql, args);
    pieces := if driver.Postgres? then BindDollar(out, outArgs) else Bind(out, outArgs);
  }

  ghost predicate Sendable(q: Query, st: Statement)
    requires st.Ok()
  {
    q.driver.Postgres? ==> Clean(Texts(FragsOf(q, st)), |Args(FragsOf(q, st))|)
  }

  /** The server reads each argument in the fragment it was given for. */
  lemma SentIsBound(q: Query, st: Statement, sql: string, args: seq<Value>)
    requires Tidy(q) && st.Ok() && Sendable(q, st)
    requires Renders(sql, args, FragsOf(q, st))
    ensures q.driver.Postgres? ==> BindDollar(Numbered(sql, 0), args) == Bound(FragsOf(q, st))
    ensures q.driver.MySQL? ==> Bind(sql, args) == Bound(FragsOf(q, st))
  {
    EveryStatementIsAligned(q, st);
    BothDialectsAgree(q, st);
  }

  // ------------------------------------------------------------ paginate

  /** The builder without its own paging. */
  function Base(q: Query): Query
  {
    q.(limit := 0, offset := 0)
  }

  /** The clone that Paginate counts with. */
  function CountClone(q: Query): Query
  {
    Base(q).(selects := [], orderBys := [], rawSQL := "", rawArgs := [])
  }

  function Windowed(q: Query, page: int, perPage: int): Query
  {
    q.(limit := PageSize(perPage), offset := (PageNo(page) - 1) * PageSize(perPage))
  }

  /** A table query with plain columns whose texts the server reads, in either dialect. */
  ghost predicate Pageable<S, R>(sv: Server<S, R>, q: Query, page: int, perPage: int)
  {
    && Tidy(q) && Understands(sv, q) && Plain(sv, q)
    && Sendable(CountClone(q), Count)
    && Sendable(Windowed(q, page, perPage), Select)
  }

  method CountRows<S, R>(sv: Server<S, R>, b: Builder) returns (n: nat)
    modifies b
    ensures Tidy(old(b.State())) && Sendable(old(b.State()), Count) ==>
              n == sv.count(Read(Bound(CountFrags(old(b.State())))))
  {
    ghost var q := b.State();
    var sql, args := b.BuildCount();
    var pieces := Send(b.driver, sql, args);
    if Tidy(q) && Sendable(q, Count) {
      SentIsBound(q, Count, sql, args);
    }
    n := sv.count(Read(pieces));
  }

  method All<S, R>(sv: Server<S, R>, b: Builder) returns (rows: seq<R>)
    ensures Tidy(b.State()) && Sendable(b.State(), Select) ==> rows == Rows(sv, b.State())
  {
    ghost var q := b.State();
    var sql, args := b.BuildSelect();
    var pieces := Send(b.driver, sql, args);
    if Tidy(q) && Sendable(q, Select) {
      SentIsBound(q, Select, sql, args);
    }
    rows := sv.select(Read(pieces));
  }

  /**
   Paginate answers the requested page of the whole unpaged result, under the total
   that the count query gives; CountAgreesExactly says when that is the number of rows.
   */
  method Paginate<S(!new), R(!new)>(sv: Server<S, R>, b: Builder, page: int, perPage: int) returns (r: Page<R>)
    modifies b
    ensures var q := old(b.State());
      Lawful(sv) && Pageable(sv, q, page, perPage) ==>
        r == PageWith(Rows(sv, Base(q)), Counted(sv, Core(q)), page, perPage)
    ensures r.perPage == (if perPage < 1 then 15 else perPage) && r.currentPage == (if page < 1 then 1 else page)
    ensures b.State() == Windowed(old(b.State()), page, perPage)
  {
    ghost var q := b.State();
    var p, n := page, perPage;
    if p < 1 {
      p := 1;
    }
    if n < 1 {
      n := 15;
    }
    OffsetIsNat(p, n);

    var total := CountClonedRows(sv, b);
    b.limit := n;
    b.offset := (p - 1) * n;
    assert b.State() == Windowed(q, page, perPage);
    var items := All(sv, b);
    var lastPage, from, to := PageNumbers(total, p, n);
    r := Page(items, total, n, p, lastPage, from, to);
    PageIsRight(sv, q, page, perPage, r);
  }

  /** What the count query on a core answers. */
  function Counted<S, R>(sv: Server<S, R>, c: Clauses): nat
  {
    if c.group.Some? then |Selected(sv, c)|
    else if c.having.Some? && Selected(sv, c) == [] then 0
    else |Kept(sv, c)|
  }

  /** What Paginate has put together is the page, if its two queries were answered right. */
  lemma PageIsRight<S(!new), R(!new)>(sv: Server<S, R>, q: Query, page: int, perPage: int, r: Page<R>)
    requires Tidy(CountClone(q)) && Sendable(CountClone(q), Count) ==>
               r.total == sv.count(Read(Bound(CountFrags(CountClone(q)))))
    requires Tidy(Windowed(q, page, perPage)) && Sendable(Windowed(q, page, perPage), Select) ==>
               r.items == Rows(sv, Windowed(q, page, perPage))
    requires NumbersRight(r, page, perPage)
    ensures Lawful(sv) && Pageable(sv, q, page, perPage) ==>
              r == PageWith(Rows(sv, Base(q)), Counted(sv, Core(q)), page, perPage)
  {
    if Lawful(sv) && Pageable(sv, q, page, perPage) {
      WindowIsTidy(q, page, perPage);
      CountsSelected(sv, q);
      CutsTheSameRows(sv, q, page, perPage);
      PageFromParts(Rows(sv, Base(q)), Counted(sv, Core(q)), page, perPage, r);
    }
  }

  ghost predicate NumbersRight<R>(r: Page<R>, page: int, perPage: int)
  {
    && r.total >= 0 && r.perPage == PageSize(perPage) && r.currentPage == PageNo(page)
    && r.lastPage == LastPage(r.total, r.perPage)
    && (r.from == if r.total == 0 then 0 else (r.currentPage - 1) * r.perPage + 1)
    && (r.to == if r.total == 0 then 0 else Min(r.currentPage * r.perPage, r.total))
  }

  lemma PageFromParts<R>(rows: seq<R>, total: nat, page: int, perPage: int, r: Page<R>)
    requires NumbersRight(r, page, perPage)
    requires r.total == total && r.items == PageWith(rows, total, page, perPage).items
    ensures r == PageWith(rows, total, page, perPage)
  {
  }

  method CountClonedRows<S, R>(sv: Server<S, R>, b: Builder) returns (n: nat)
    ensures Tidy(CountClone(b.State())) && Sendable(CountClone(b.State()), Count) ==>
              n == sv.count(Read(Bound(CountFrags(CountClone(b.State())))))
  {
    var countB := Clone(b);
    n := CountRows(sv, countB);
  }

  method PageNumbers(total: nat, p: int, n: int) returns (lastPage: int, from: int, to: int)
    requires p >= 1 && n >= 1
    ensures lastPage == LastPage(total, n)
    ensures from == if total == 0 then 0 else (p - 1) * n + 1
    ensures to == if total == 0 then 0 else Min(p * n, total)
  {
    lastPage := total / n;
    if total % n != 0 {
      lastPage := lastPage + 1;
    }
    if lastPage < 1 {
      lastPage := 1;
    }
    from := (p - 1) * n + 1;
    to := p * n;
    if to > total {
      to := total;
    }
    if total == 0 {
      from := 0;
      to := 0;
    }
  }

  /** The count builder: same table, conditions, joins, grouping and soft delete. */
  method Clone(b: Builder) returns (c: Builder)
    ensures fresh(c) && c.State() == CountClone(b.State())
  {
    c := new Builder(b.driver, b.table);
    c.wheres := c.wheres + b.wheres;
    c.joins := c.joins + b.joins;
    c.groupBys := c.groupBys + b.groupBys;
    c.having := b.having;
    c.havingArgs := c.havingArgs + b.havingArgs;
    c.withTrashed := b.withTrashed;
    c.softDelete := b.softDelete;
  }

  lemma WindowIsTidy(q: Query, page: int, perPage: int)
    requires Tidy(q)
    ensures Tidy(Windowed(q, page, perPage)) && Tidy(CountClone(q))
  {
  }

  /** The data query selects as many rows as the core is about. */
  lemma RowsAreSelected<S(!new), R(!new)>(sv: Server<S, R>, c: Clauses, s: Pieces, o: Option<Pieces>)
    requires SelectLaw(sv, c) && sv.plain(c, s, o)
    ensures |sv.select(Shown(c, s, o))| == |Selected(sv, c)|
  {
    var rows := sv.select(Shown(c, s, o));
    assert |multiset(rows)| == |multiset(Presented(sv, s, Selected(sv, c)))|;
  }

  /** The clone's statements are about the same rows as the builder's. */
  lemma CloneIsCore(q: Query)
    ensures Core(CountClone(q)) == Core(q)
    ensures LegibleQuery(q) ==> LegibleQuery(CountClone(q))
  {
    ColumnIsLegible("*");
  }

  lemma GroupsAreCounted<S(!new), R(!new)>(sv: Server<S, R>, q: Query)
    requires q.groupBys != [] && q.rawSQL == "" && LegibleQuery(q)
    requires SelectLaw(sv, Core(q)) && DerivedLaw(sv, Core(q)) && sv.plain(Core(q), Chars("1"), None)
    ensures sv.count(Read(Bound(CountFrags(q)))) == |Selected(sv, Core(q))|
  {
    CountReadsBack(q);
    assert Inner(q) == Shown(Core(q), Chars("1"), None);
    assert ShowsAll(sv, Core(q), Read(Write(Inner(q))));
    RowsAreSelected(sv, Core(q), Chars("1"), None);
  }

  lemma RowsAreCounted<S(!new), R(!new)>(sv: Server<S, R>, q: Query)
    requires q.groupBys == [] && q.rawSQL == "" && LegibleQuery(q)
    requires q.limit == 0 && q.offset == 0 && q.orderBys == []
    requires CountLaw(sv, Core(q))
    ensures sv.count(Read(Bound(CountFrags(q)))) == Counted(sv, Core(q))
  {
    CountReadsBack(q);
    assert ClausesOf(q).(columns := Chars(COUNT)) == Shown(Core(q), Chars(COUNT), None);
  }

  /** The count query, sent from the clone, is about the same core; what it answers depends on its shape. */
  lemma CountsSelected<S(!new), R(!new)>(sv: Server<S, R>, q: Query)
    requires Lawful(sv) && Understands(sv, q)
    ensures sv.count(Read(Bound(CountFrags(CountClone(q))))) == Counted(sv, Core(q))
  {
    CloneIsCore(q);
    assert ObeysOn(sv, Core(q));
    if q.groupBys != [] {
      GroupsAreCounted(sv, CountClone(q));
    } else {
      RowsAreCounted(sv, CountClone(q));
    }
  }

  /**
   The total is the number of rows of the whole result exactly when the query is
   grouped, or has no HAVING, or its HAVING drops the one group, or that group is one row.
   */
  lemma CountAgreesExactly<S(!new), R(!new)>(sv: Server<S, R>, q: Query)
    requires Lawful(sv) && Understands(sv, q) && Plain(sv, q)
    ensures sv.count(Read(Bound(CountFrags(CountClone(q))))) == |Rows(sv, Base(q))| <==>
            q.groupBys != [] || q.having == "" || Selected(sv, Core(q)) == [] || |Kept(sv, Core(q))| == 1
  {
    CountsSelected(sv, q);
    RowsAreShown(sv, q);
    assert ObeysOn(sv, Core(q));
    RowsAreSelected(sv, Core(q), ClausesOf(q).columns, ClausesOf(q).order);
    CountedExactly(sv, Core(q));
  }

  lemma CountedExactly<S(!new), R(!new)>(sv: Server<S, R>, c: Clauses)
    requires CountLaw(sv, c)
    ensures Counted(sv, c) == |Selected(sv, c)| <==>
            c.group.Some? || c.having.None? || Selected(sv, c) == [] || |Kept(sv, c)| == 1
  {
  }

  lemma CutsTheSameRows<S(!new), R(!new)>(sv: Server<S, R>, q: Query, page: int, perPage: int)
    requires Lawful(sv) && Understands(sv, q) && Plain(sv, q)
    ensures Rows(sv, Windowed(q, page, perPage)) == PageOf(Rows(sv, Base(q)), page, perPage).items
  {
    var p, n := PageNo(page), PageSize(perPage);
    OffsetIsNat(p, n);
    RowsAreShown(sv, q);
    WindowReadsBack(q, page, perPage);
    assert ObeysOn(sv, Core(q));
    PageIsCut(sv, Core(q), ClausesOf(q).columns, ClausesOf(q).order, n, (p - 1) * n);
  }

  lemma WindowReadsBack(q: Query, page: int, perPage: int)
    requires q.rawSQL == "" && LegibleQuery(q)
    ensures Read(Bound(SelectFrags(Windowed(q, page, perPage)))) ==
            Shown(Core(q), ClausesOf(q).columns, ClausesOf(q).order).(
              limit := Some(PageSize(perPage)),
              offset := NumberPart((PageNo(page) - 1) * PageSize(perPage)))
  {
    SelectReadsBack(Windowed(q, page, perPage));
  }

  lemma PageIsCut<S(!new), R(!new)>(
    sv: Server<S, R>, c: Clauses, s: Pieces, o: Option<Pieces>, limit: nat, offset: nat)
    requires PageLaw(sv, c) && sv.plain(c, s, o) && limit > 0
    ensures sv.select(Shown(c, s, o).(limit := Some(limit), offset := NumberPart(offset))) ==
            Slice(sv.select(Shown(c, s, o)), limit, offset)
  {
    var part := NumberPart(offset);
    assert sv.select(Shown(c, s, o).(limit := Some(limit), offset := part))
        == Slice(sv.select(Shown(c, s, o)), limit, if part.Some? then part.value else 0);
  }

  // ----------------------------------------------------------- arithmetic

  /** Pages 1 to k of a result, one after the other. */
  function FirstPages<R>(rows: seq<R>, n: int, k: nat): seq<R>
  {
    if k == 0 then [] else FirstPages(rows, n, k - 1) + PageOf(rows, k, n).items
  }

  lemma {:induction false} FirstPagesArePrefix<R>(rows: seq<R>, n: int, k: nat)
    requires n >= 1
    ensures k * n >= 0
    ensures FirstPages(rows, n, k) == rows[..Min(k * n, |rows|)]
  {
    if k > 0 {
      FirstPagesArePrefix(rows, n, k - 1);
      OffsetIsNat(k, n);
      Prefixes(rows, (k - 1) * n, n);
    }
  }

  lemma Prefixes<R>(rows: seq<R>, a: nat, n: nat)
    ensures rows[..Min(a, |rows|)] + Slice(rows, n, a) == rows[..Min(a + n, |rows|)]
  {
  }

  /** The pages 1 to LastPage are the whole result. */
  lemma PagesAreTheWholeResult<R>(rows: seq<R>, n: int)
    requires n >= 1
    ensures FirstPages(rows, n, PageOf(rows, 1, n).lastPage) == rows
  {
    var last := LastPage(|rows|, n);
    FirstPagesArePrefix(rows, n, last);
    assert rows[..|rows|] == rows;
  }

  /** No fewer pages are. */
  lemma NoPageIsSpare<R>(rows: seq<R>, n: int, k: nat)
    requires n >= 1 && rows != [] && k < PageOf(rows, 1, n).lastPage
    ensures |FirstPages(rows, n, k)| < |rows|
  {
    FirstPagesArePrefix(rows, n, k);
    Monotone(k, LastPage(|rows|, n) - 1, n);
  }

  lemma Monotone(a: int, b: int, n: int)
    requires a <= b && n >= 0
    ensures a * n <= b * n
  {
    assert (b - a) * n >= 0;
  }

  /** [From, To] of the pages 1 to LastPage tile 1..Total and name the rows shown. */
  lemma PagesTile<R>(rows: seq<R>, n: int, p: int)
    requires n >= 1 && rows != [] && 1 <= p <= PageOf(rows, 1, n).lastPage
    ensures p == 1 ==> PageOf(rows, p, n).from == 1
    ensures p < PageOf(rows, 1, n).lastPage ==> PageOf(rows, p + 1, n).from == PageOf(rows, p, n).to + 1
    ensures p == PageOf(rows, 1, n).lastPage ==> PageOf(rows, p, n).to == |rows|
    ensures 1 <= PageOf(rows, p, n).from <= PageOf(rows, p, n).to <= |rows|
    ensures PageOf(rows, p, n).items == rows[PageOf(rows, p, n).from - 1..PageOf(rows, p, n).to]
  {
    var last := LastPage(|rows|, n);
    OffsetIsNat(p, n);
    Monotone(p - 1, last - 1, n);
    Monotone(p, last, n);
    if p < last {
      Monotone(p, last - 1, n);
    }
  }

  /** A page's length is To - From + 1 exactly on non-empty results and pages that start at or before the end. */
  lemma LengthMatchesExactly<R>(rows: seq<R>, page: int, perPage: int)
    ensures |PageOf(rows, page, perPage).items| == PageOf(rows, page, perPage).to - PageOf(rows, page, perPage).from + 1
            <==> rows != [] && (PageNo(page) - 1) * PageSize(perPage) <= |rows|
  {
    OffsetIsNat(PageNo(page), PageSize(perPage));
  }
}
