/**
 The one shape of query whose total can be wrong: HAVING without GROUP BY. The
 count query asks for COUNT(*) of the one group, which is how many rows are in it,
 and not for the number of groups, which is one.
 */
module Miscount {
  import opened Seqs
  import opened Sql
  import opened Filters
  import opened Options
  import opened Reading
  import opened Statements
  import opened Paging

  lemma {:induction false} AllHold(s: Pieces, atom: Pieces -> bool)
    requires forall p :: atom(p)
    ensures EvalAnd(s, atom) && EvalOr(s, atom)
    decreases |s|
  {
    var i, j := FirstTop(s, AND, 0), FirstTop(s, OR, 0);
    if i + |AND| <= |s| {
      AllHold(s[i + |AND|..], atom);
    }
    if j + |OR| <= |s| {
      AllHold(s[j + |OR|..], atom);
    }
  }

  /**
   A server with two rows that pass every condition, and one group. It knows one
   core, and one column list and order on it.
   */
  function TwoRows(c: Clauses, s0: Pieces, o0: Option<Pieces>): Server<int, int>
  {
    Server(
      d => d == c,
      (d, s, o) => d == c && s == s0 && o == o0,
      p => [1, 2],
      (r, p) => true,
      (g, h, rows) => [1],
      (s, r) => 1,
      OneRow,
      d => if IsDerived(d) then 1 else 2)
  }

  /** One row, cut to the page. */
  function OneRow(d: Clauses): seq<int>
  {
    Slice([1], if d.limit.Some? then d.limit.value else 1, if d.offset.Some? then d.offset.value else 0)
  }

  /** FROM is followed by a parenthesis, not by a quoted name. */
  predicate IsDerived(d: Clauses)
  {
    d.source != [] && d.source[0] == Ch('(')
  }

  lemma TableIsNotDerived(q: Query)
    ensures !IsDerived(ClausesOf(q))
  {
    JoinsSpell(QuoteIdent(q.driver, q.table), q.joins);
    assert SourceText(q)[0] == QuoteIdent(q.driver, q.table)[0] != '(';
  }

  lemma TwoRowsKept(c: Clauses, s: Pieces, o: Option<Pieces>)
    ensures Kept(TwoRows(c, s, o), c) == [1, 2]
  {
    var sv := TwoRows(c, s, o);
    forall r ensures Keeps(sv, c, r) {
      if c.where.Some? {
        AllHold(c.where.value, AtomOf(sv, r));
      }
    }
    var rows := [1, 2];
    assert rows[..1] == [1] && rows[..1][..0] == [];
    assert Filtered(sv, c, [1]) == [1];
    assert Filtered(sv, c, rows) == [1] + [2];
  }

  lemma TwoRowsShowsOne(c: Clauses, s: Pieces, o: Option<Pieces>)
    ensures TwoRows(c, s, o).select(Shown(c, s, o)) == [1]
  {
  }

  lemma TwoRowsSelectLaw(c: Clauses, s: Pieces, o: Option<Pieces>)
    requires c.having.Some?
    ensures SelectLaw(TwoRows(c, s, o), c)
  {
    var sv := TwoRows(c, s, o);
    assert Selected(sv, c) == [1];
    assert Presented(sv, s, [1]) == [1];
    TwoRowsShowsOne(c, s, o);
  }

  lemma TwoRowsPageLaw(c: Clauses, s: Pieces, o: Option<Pieces>)
    ensures PageLaw(TwoRows(c, s, o), c)
  {
    TwoRowsShowsOne(c, s, o);
  }

  lemma TwoRowsCountLaw(c: Clauses, s: Pieces, o: Option<Pieces>)
    requires c.having.Some? && !IsDerived(c)
    ensures CountLaw(TwoRows(c, s, o), c) && DerivedLaw(TwoRows(c, s, o), c)
  {
    TwoRowsKept(c, s, o);
    TwoRowsShowsOne(c, s, o);
    forall inner: Pieces
      ensures IsDerived(Derived(inner))
    {
      assert Derived(inner).source[0] == Group(inner)[0];
    }
  }

  lemma TwoRowsObeys(c: Clauses, s: Pieces, o: Option<Pieces>)
    requires c.having.Some? && !IsDerived(c)
    ensures ObeysOn(TwoRows(c, s, o), c)
  {
    TwoRowsSelectLaw(c, s, o);
    TwoRowsPageLaw(c, s, o);
    TwoRowsCountLaw(c, s, o);
    forall ws, r
      ensures ReadsParentheses(ws, AtomOf(TwoRows(c, s, o), r))
    {
      if ws != [] {
        AllHold(ChainText(ws), AtomOf(TwoRows(c, s, o), r));
      }
    }
  }

  /**
   Every table query with HAVING and no GROUP BY, whatever its column list and its
   order, has a lawful server on which Paginate's total is wrong.
   */
  lemma HavingMiscounts(q: Query) returns (sv: Server<int, int>)
    requires q.rawSQL == "" && q.rawArgs == [] && LegibleQuery(q)
    requires q.groupBys == [] && q.having != ""
    ensures Lawful(sv) && Understands(sv, q) && Plain(sv, q)
    ensures sv.count(Read(Bound(CountFrags(CountClone(q))))) == 2 && |Rows(sv, Base(q))| == 1
  {
    var c, s, o := Core(q), ClausesOf(q).columns, ClausesOf(q).order;
    sv := TwoRows(c, s, o);
    TableIsNotDerived(q);
    TwoRowsObeys(c, s, o);
    TwoRowsKept(c, s, o);
    CountsSelected(sv, q);
    RowsAreShown(sv, q);
    RowsAreSelected(sv, c, s, o);
  }

  ghost predicate TotalIsRight(sv: Server<int, int>, q: Query)
  {
    Lawful(sv) && Understands(sv, q) && Plain(sv, q) ==>
      sv.count(Read(Bound(CountFrags(CountClone(q))))) == |Rows(sv, Base(q))|
  }

  /**
   The total is right on every lawful server that reads the query as meant, if and only
   if the query is grouped or has no HAVING (or there is no such server).
   */
  lemma TotalIsRightExactly(q: Query)
    requires q.rawSQL == "" && q.rawArgs == []
    ensures (forall sv :: TotalIsRight(sv, q)) <==> q.groupBys != [] || q.having == "" || !LegibleQuery(q)
  {
    if q.groupBys != [] || q.having == "" || !LegibleQuery(q) {
      forall sv ensures TotalIsRight(sv, q) {
        if Lawful(sv) && Understands(sv, q) && Plain(sv, q) {
          CountAgreesExactly(sv, q);
        }
      }
    } else {
      var sv := HavingMiscounts(q);
      assert !TotalIsRight(sv, q);
    }
  }
}
