/**
 The query builder object: its setters fill fields, its build methods assemble
 SQL text and an argument list with local loops.  Each build method is proved to
 emit the fragments of its statement, texts and arguments in the same order.
 */
module Builders {
  import opened Options
  import opened Seqs
  import opened Sql

  lemma Emit(fs: seq<Frag>, f: Frag)
    ensures Texts(fs + [f]) == Texts(fs) + f.text
    ensures Args(fs + [f]) == Args(fs) + f.args
  {
    assert (fs + [f])[..|fs|] == fs;
  }

  /** A fragment list rendered as a text and an argument list. */
  ghost predicate Renders(sql: string, args: seq<Value>, fs: seq<Frag>)
  {
    sql == Texts(fs) && args == Args(fs)
  }

  lemma RendersText(sql: string, args: seq<Value>, fs: seq<Frag>, text: string)
    requires Renders(sql, args, fs)
    ensures Renders(sql + text, args, fs + Only(text))
  {
    Emit(fs, Frag(text, []));
  }

  lemma RendersBoth(sql: string, args: seq<Value>, fs: seq<Frag>, more: string, margs: seq<Value>, gs: seq<Frag>)
    requires Renders(sql, args, fs) && Renders(more, margs, gs)
    ensures Renders(sql + more, args + margs, fs + gs)
  {
    TextsAppend(fs, gs);
  }

  // ------------------------------------------------------------ WHERE chain

  function Part(w: Where, first: bool): string
  {
    var clause := "(" + w.clause + ")";
    if first then clause else if w.or then "OR " + clause else "AND " + clause
  }

  lemma JoinOneMore(parts: seq<string>, sep: string, p: string)
    ensures JoinWith(parts + [p], sep) == if parts == [] then p else JoinWith(parts, sep) + sep + p
  {
    assert (parts + [p])[..|parts|] == parts;
  }

  lemma LeadSpells(w: Where, first: bool)
    ensures Lead(first, w.or) + w.clause + ")" == if first then Part(w, first) else " " + Part(w, first)
  {
    if !first {
      var word := if w.or then "OR " else "AND ";
      LeadIsWord(w.or, word);
      Opened(word, w.clause);
    }
  }

  lemma LeadIsWord(or: bool, word: string)
    requires word == if or then "OR " else "AND "
    ensures Lead(false, or) == " " + word + "("
  {
  }

  lemma Opened(word: string, clause: string)
    ensures " " + word + "(" + clause + ")" == " " + (word + ("(" + clause + ")"))
  {
  }

  /** A joined list grows by one part, the fragments by the same text. */
  lemma JoinRenders(parts: seq<string>, sep: string, args: seq<Value>, fs: seq<Frag>, p: string, more: seq<Frag>)
    requires Renders(JoinWith(parts, sep), args, fs)
    requires Texts(more) == if parts == [] then p else sep + p
    requires parts == [] ==> fs == []
    ensures Renders(JoinWith(parts + [p], sep), args + Args(more), fs + more)
  {
    JoinOneMore(parts, sep, p);
    TextsAppend(fs, more);
    if parts != [] {
      Assoc(JoinWith(parts, sep), sep, p);
    } else {
      Empty(p);
    }
  }

  lemma Empty(a: string)
    ensures "" + a == a
  {
  }

  lemma TextsTwo(a: Frag, b: Frag)
    ensures Texts([a, b]) == a.text + b.text && Args([a, b]) == a.args + b.args
  {
    TextsOne(a);
    Emit([a], b);
    assert [a, b] == [a] + [b];
  }

  lemma TextsThree(a: Frag, b: Frag, c: Frag)
    ensures Texts([a, b, c]) == a.text + b.text + c.text && Args([a, b, c]) == a.args + b.args + c.args
  {
    TextsTwo(a, b);
    Emit([a, b], c);
    assert [a, b, c] == [a, b] + [c];
  }

  function WhereFrag3(w: Where, first: bool): seq<Frag>
  {
    [Frag(Lead(first, w.or), []), Frag(w.clause, w.args), Frag(")", [])]
  }

  lemma WhereThree(w: Where, first: bool)
    ensures Texts(WhereFrag3(w, first)) == if first then Part(w, first) else " " + Part(w, first)
    ensures Args(WhereFrag3(w, first)) == w.args
  {
    TextsThree(Frag(Lead(first, w.or), []), Frag(w.clause, w.args), Frag(")", []));
    LeadSpells(w, first);
  }

  /** One more condition on the chain. */
  lemma WhereOneMore(parts: seq<string>, args: seq<Value>, ws: seq<Where>, w: Where)
    requires Renders(JoinWith(parts, " "), args, WhereFrags(ws)) && |parts| == |ws|
    ensures Renders(JoinWith(parts + [Part(w, ws == [])], " "), args + w.args, WhereFrags(ws + [w]))
  {
    WhereThree(w, ws == []);
    JoinRenders(parts, " ", args, WhereFrags(ws), Part(w, ws == []), WhereFrag3(w, ws == []));
    WhereFragsGrow(ws, w);
  }

  lemma WhereFragsGrow(ws: seq<Where>, w: Where)
    ensures WhereFrags(ws + [w]) == WhereFrags(ws) + WhereFrag3(w, ws == [])
  {
    assert (ws + [w])[..|ws|] == ws;
  }

  lemma WhereTail(filter: string, args: seq<Value>, ws: seq<Where>)
    requires Renders(filter, args, WhereFrags(ws))
    ensures Renders(" WHERE " + filter, args, Only(" WHERE ") + WhereFrags(ws))
  {
    TextsOne(Frag(" WHERE ", []));
    RendersBoth(" WHERE ", [], Only(" WHERE "), filter, args, WhereFrags(ws));
  }

  lemma HavingTail(having: string, args: seq<Value>)
    ensures Renders(" HAVING " + having, args, Only(" HAVING ") + [Frag(having, args)])
  {
    TextsOne(Frag(" HAVING ", []));
    TextsOne(Frag(having, args));
    RendersBoth(" HAVING ", [], Only(" HAVING "), having, args, [Frag(having, args)]);
  }

  // --------------------------------------------------- columns and values

  function Marks(n: nat): (r: seq<string>)
    ensures |r| == n
  {
    if n == 0 then [] else Marks(n - 1) + ["?"]
  }

  lemma {:induction false} ValuesRender(vals: seq<Value>)
    ensures Renders(JoinWith(Marks(|vals|), ", "), vals, ValueFrags(vals))
  {
    if vals == [] {
      NoValues(vals, Marks(|vals|), ", ");
    } else {
      var n := |vals| - 1;
      var front := vals[..n];
      ValuesRender(front);
      FrontAndLast(vals, n);
      ValueOneMore(front, vals[n], vals);
    }
  }

  lemma NoValues(vals: seq<Value>, marks: seq<string>, sep: string)
    requires vals == [] && |marks| == 0
    ensures Renders(JoinWith(marks, sep), vals, ValueFrags(vals))
  {
  }

  lemma ValueOneMore(vals: seq<Value>, v: Value, vals': seq<Value>)
    requires Renders(JoinWith(Marks(|vals|), ", "), vals, ValueFrags(vals)) && vals' == vals + [v]
    ensures Renders(JoinWith(Marks(|vals'|), ", "), vals', ValueFrags(vals'))
  {
    var f := ValueFrag(vals == [], v);
    ValueSpells(vals == [], v);
    assert Marks(|vals'|) == Marks(|vals|) + ["?"];
    JoinRenders(Marks(|vals|), ", ", vals, ValueFrags(vals), "?", [f]);
    ValueFragsGrow(vals, v);
  }

  function ValueFrag(first: bool, v: Value): Frag
  {
    Frag(if first then "?" else ", ?", [v])
  }

  lemma ValueSpells(first: bool, v: Value)
    ensures Texts([ValueFrag(first, v)]) == if first then "?" else ", " + "?"
    ensures Args([ValueFrag(first, v)]) == [v]
  {
    TextsOne(ValueFrag(first, v));
  }

  lemma ValueFragsGrow(vals: seq<Value>, v: Value)
    ensures ValueFrags(vals + [v]) == ValueFrags(vals) + [ValueFrag(vals == [], v)]
  {
    assert (vals + [v])[..|vals|] == vals;
  }

  function Setters(driver: Driver, cols: seq<string>): (r: seq<string>)
    ensures |r| == |cols|
  {
    seq(|cols|, i requires 0 <= i < |cols| => QuoteIdent(driver, cols[i]) + " = ?")
  }

  lemma SettersGrow(driver: Driver, cols: seq<string>, c: string)
    ensures Setters(driver, cols + [c]) == Setters(driver, cols) + [QuoteIdent(driver, c) + " = ?"]
  {
  }

  function SetFrag2(driver: Driver, first: bool, c: string, v: Value): seq<Frag>
  {
    [Frag((if first then "" else ", ") + QuoteIdent(driver, c), []), Frag(" = ?", [v])]
  }

  lemma SetFragsGrow(driver: Driver, cols: seq<string>, vals: seq<Value>, c: string, v: Value)
    requires |cols| == |vals|
    ensures SetFrags(driver, cols + [c], vals + [v]) ==
            SetFrags(driver, cols, vals) + SetFrag2(driver, cols == [], c, v)
  {
    assert (cols + [c])[..|cols|] == cols && (vals + [v])[..|cols|] == vals;
  }

  lemma {:induction false} SettersRender(driver: Driver, cols: seq<string>, vals: seq<Value>)
    requires |cols| == |vals|
    ensures Renders(JoinWith(Setters(driver, cols), ", "), vals, SetFrags(driver, cols, vals))
  {
    if cols != [] {
      var n := |cols| - 1;
      var front, vfront := cols[..n], vals[..n];
      SettersRender(driver, front, vfront);
      FrontAndLast(cols, n);
      FrontAndLast(vals, n);
      SetterOneMore(driver, front, vfront, cols[n], vals[n], cols, vals);
    } else {
      assert Setters(driver, cols) == [];
    }
  }

  lemma SetterOneMore(driver: Driver, cols: seq<string>, vals: seq<Value>, c: string, v: Value,
                      cols': seq<string>, vals': seq<Value>)
    requires |cols| == |vals| && cols' == cols + [c] && vals' == vals + [v]
    requires Renders(JoinWith(Setters(driver, cols), ", "), vals, SetFrags(driver, cols, vals))
    ensures Renders(JoinWith(Setters(driver, cols'), ", "), vals', SetFrags(driver, cols', vals'))
  {
    var name, more := QuoteIdent(driver, c), SetFrag2(driver, cols == [], c, v);
    SetterSpells(more[0], more[1], cols == [], name);
    assert more == [more[0], more[1]];
    JoinRenders(Setters(driver, cols), ", ", vals, SetFrags(driver, cols, vals), name + " = ?", more);
    SettersGrow(driver, cols, c);
    SetFragsGrow(driver, cols, vals, c, v);
  }

  lemma SetterSpells(a: Frag, b: Frag, first: bool, name: string)
    requires a.text == (if first then "" else ", ") + name && b.text == " = ?" && a.args == []
    ensures Texts([a, b]) == if first then name + " = ?" else ", " + (name + " = ?")
    ensures Args([a, b]) == b.args
  {
    TextsTwo(a, b);
    Assoc(", ", name, " = ?");
    Empty(name);
  }

  // -------------------------------------------------------------- builder

  class Builder {
    const driver: Driver
    var table: string
    var wheres: seq<Where>
    var selects: seq<string>
    var orderBys: seq<string>
    var limit: int
    var offset: int
    var joins: seq<string>
    var groupBys: seq<string>
    var having: string
    var havingArgs: seq<Value>
    var rawSQL: string
    var rawArgs: seq<Value>
    var withTrashed: bool
    var softDelete: bool

    function State(): Query
      reads this
    {
      Query(driver, table, selects, joins, wheres, groupBys, having, havingArgs, orderBys, limit, offset,
            rawSQL, rawArgs, softDelete, withTrashed)
    }

    /** A builder as the pool hands it out, on a table. */
    constructor (driver: Driver, table: string)
      ensures State() == Query(driver, table, [], [], [], [], "", [], [], 0, 0, "", [], false, false)
    {
      this.driver, this.table := driver, table;
      wheres, selects, orderBys, joins, groupBys := [], [], [], [], [];
      limit, offset, having, havingArgs := 0, 0, "", [];
      rawSQL, rawArgs, withTrashed, softDelete := "", [], false, false;
    }

    method AddWhere(clause: string, args: seq<Value>)
      modifies this
      ensures State() == old(State()).(wheres := old(wheres) + [Where(clause, args, false)])
    {
      wheres := wheres + [Where(clause, args, false)];
    }

    method OrWhere(clause: string, args: seq<Value>)
      modifies this
      ensures State() == old(State()).(wheres := old(wheres) + [Where(clause, args, true)])
    {
      wheres := wheres + [Where(clause, args, true)];
    }

    method BuildWhere() returns (sql: string, args: seq<Value>)
      ensures Renders(sql, args, WhereFrags(wheres))
      ensures sql == "" <==> wheres == []
    {
      if |wheres| == 0 {
        return "", [];
      }
      var parts := [];
      args := [];
      for i := 0 to |wheres|
        invariant |parts| == i
        invariant Renders(JoinWith(parts, " "), args, WhereFrags(wheres[..i]))
        invariant i > 0 ==> JoinWith(parts, " ") != ""
      {
        var w := wheres[i];
        var clause := "(" + w.clause + ")";
        if i > 0 {
          if w.or {
            clause := "OR " + clause;
          } else {
            clause := "AND " + clause;
          }
        }
        assert wheres[..i + 1] == wheres[..i] + [w];
        WhereOneMore(parts, args, wheres[..i], w);
        JoinOneMore(parts, " ", clause);
        parts := parts + [clause];
        args := args + w.args;
      }
      assert wheres[..|wheres|] == wheres;
      sql := JoinWith(parts, " ");
    }

    /** The soft-delete filter conjoined with the parenthesised chain. */
    method Guarded(head: string, ghost fs: seq<Frag>, sd: string, filter: string, ghost args: seq<Value>)
      returns (sql: string)
      requires Renders(head, [], fs) && Renders(filter, args, WhereFrags(wheres))
      ensures Renders(sql, args, fs + Only(sd) + Only(" AND (") + WhereFrags(wheres) + Only(")"))
    {
      sql := head + sd;
      RendersText(head, [], fs, sd);
      ghost var gs := fs + Only(sd);
      RendersText(sql, [], gs, " AND (");
      sql := sql + " AND (";
      gs := gs + Only(" AND (");
      RendersBoth(sql, [], gs, filter, args, WhereFrags(wheres));
      sql := sql + filter;
      RendersText(sql, args, gs + WhereFrags(wheres), ")");
      sql := sql + ")";
    }

    /** The WHERE part of a SELECT, soft-delete filter included. */
    method BuildFilter() returns (sql: string, args: seq<Value>)
      ensures Renders(sql, args, FilterFrags(State()))
    {
      var filter, wArgs := BuildWhere();
      var sdClause := "";
      if softDelete && !withTrashed {
        sdClause := QuoteIdent(driver, "deleted_at") + " IS NULL";
      }
      sql, args := "", [];
      ghost var fs: seq<Frag> := [];
      if filter != "" || sdClause != "" {
        sql := sql + " WHERE ";
        RendersText("", [], [], " WHERE ");
        fs := Only(" WHERE ");
        if sdClause != "" && filter != "" {
          sql := Guarded(sql, fs, sdClause, filter, wArgs);
        } else if sdClause != "" {
          RendersText(sql, [], fs, sdClause);
          sql := sql + sdClause;
        } else {
          RendersBoth(sql, [], fs, filter, wArgs, WhereFrags(wheres));
          sql := sql + filter;
        }
        args := args + wArgs;
      }
    }

    method BuildSelect() returns (sql: string, args: seq<Value>)
      ensures Renders(sql, args, SelectFrags(State()))
    {
      if rawSQL != "" {
        TextsOne(Frag(rawSQL, rawArgs));
        return rawSQL, rawArgs;
      }
      sql := BuildColumns();
      var core, cArgs := BuildCore();
      var tail := BuildTail();
      ghost var q := State();
      TextsOne(Frag(Columns(q), []));
      RendersBoth(sql, [], Only(Columns(q)), core, cArgs, CoreFrags(q));
      RendersText(sql + core, [] + cArgs, Only(Columns(q)) + CoreFrags(q), tail);
      sql, args := sql + core + tail, [] + cArgs;
    }

    method BuildColumns() returns (sql: string)
      ensures sql == Columns(State())
    {
      sql := "SELECT ";
      if |selects| > 0 {
        sql := sql + JoinWith(selects, ", ");
      } else {
        sql := sql + "*";
      }
    }

    /** ORDER BY, LIMIT and OFFSET; a limit or offset that is not positive is left out. */
    method BuildTail() returns (sql: string)
      ensures sql == TailText(State())
    {
      sql := "";
      if |orderBys| > 0 {
        sql := sql + (" ORDER BY " + JoinWith(orderBys, ", "));
      }
      if limit > 0 {
        sql := sql + (" LIMIT " + Decimal(limit));
      }
      if offset > 0 {
        sql := sql + (" OFFSET " + Decimal(offset));
      }
    }

    /** FROM, JOIN, WHERE, GROUP BY and HAVING, in that order. */
    method BuildCore() returns (sql: string, args: seq<Value>)
      ensures Renders(sql, args, CoreFrags(State()))
    {
      ghost var q := State();
      sql := BuildFrom();
      var filter, wArgs := BuildFilter();
      RendersBoth(sql, [], FromFrags(q), filter, wArgs, FilterFrags(q));
      sql, args := sql + filter, [] + wArgs;
      var group, gArgs := BuildGroup();
      RendersBoth(sql, args, FromFrags(q) + FilterFrags(q), group, gArgs, GroupFrags(q));
      sql, args := sql + group, args + gArgs;
    }

    method BuildFrom() returns (sql: string)
      ensures Renders(sql, [], FromFrags(State()))
    {
      sql := " FROM ";
      sql := sql + QuoteIdent(driver, table);
      TextsOne(Frag(sql, []));
      ghost var head := sql;
      for i := 0 to |joins|
        invariant sql == head + Joins(joins[..i])
      {
        assert joins[..i + 1][..i] == joins[..i];
        sql := sql + " ";
        sql := sql + joins[i];
      }
      assert joins[..|joins|] == joins;
      RendersText(head, [], Only(head), Joins(joins));
    }

    method BuildGroup() returns (sql: string, args: seq<Value>)
      ensures Renders(sql, args, GroupFrags(State()))
    {
      sql, args := "", [];
      if |groupBys| > 0 {
        sql := " GROUP BY " + JoinWith(groupBys, ", ");
      }
      TextsOne(Frag(sql, []));
      if having != "" {
        HavingTail(having, havingArgs);
        ghost var clause := Only(" HAVING ") + [Frag(having, havingArgs)];
        RendersBoth(sql, args, Only(sql), " HAVING " + having, havingArgs, clause);
        sql := sql + (" HAVING " + having);
        args := args + havingArgs;
      } else {
        assert Only(sql) + [] == Only(sql);
      }
    }

    /** A grouped query is counted from outside. */
    method Wrapped(inner: string, ghost args: seq<Value>, ghost q: Query) returns (sql: string)
      requires q.groupBys != [] && State() == Stripped(q)
      requires Renders(inner, args, SelectFrags(State()))
      ensures Renders(sql, args, CountFrags(q))
    {
      var head, tail := "SELECT COUNT(*) FROM (", ") AS _oni_count";
      TextsOne(Frag(head, []));
      RendersBoth(head, [], Only(head), inner, args, SelectFrags(State()));
      RendersText(head + inner, args, Only(head) + SelectFrags(State()), tail);
      sql := head + inner + tail;
    }

    method BuildCount() returns (sql: string, args: seq<Value>)
      modifies this
      ensures Renders(sql, args, CountFrags(old(State())))
      ensures State() == if old(groupBys) != [] then Stripped(old(State()))
                         else old(State()).(selects := ["COUNT(*)"])
    {
      ghost var q := State();
      if |groupBys| > 0 {
        selects := ["1"];
        orderBys := [];
        limit, offset := 0, 0;
        assert State() == Stripped(q);
        var inner;
        inner, args := BuildSelect();
        sql := Wrapped(inner, args, q);
        return;
      }
      selects := ["COUNT(*)"];
      sql, args := BuildSelect();
    }

    method BuildInsert(cols: seq<string>, vals: seq<Value>) returns (sql: string, args: seq<Value>)
      requires |cols| == |vals|
      ensures Renders(sql, args, InsertFrags(State(), cols, vals))
    {
      var quotedCols := new string[|cols|];
      var placeholders := new string[|cols|];
      for i := 0 to |cols|
        invariant quotedCols[..i] == Quoted(driver, cols)[..i]
        invariant placeholders[..i] == Marks(i)
      {
        quotedCols[i] := QuoteIdent(driver, cols[i]);
        placeholders[i] := "?";
      }
      assert quotedCols[..] == Quoted(driver, cols);
      assert placeholders[..] == Marks(|cols|);
      var head := "INSERT INTO " + QuoteIdent(driver, table) + " (" + JoinWith(quotedCols[..], ", ") + ") VALUES (";
      var marks := JoinWith(placeholders[..], ", ");
      RendersText("", [], [], head);
      ValuesRender(vals);
      RendersBoth(head, [], Only(head), marks, vals, ValueFrags(vals));
      RendersText(head + marks, vals, Only(head) + ValueFrags(vals), ")");
      return head + marks + ")", vals;
    }

    method BuildUpdate(cols: seq<string>, vals: seq<Value>) returns (sql: string, args: seq<Value>)
      requires |cols| == |vals|
      ensures Renders(sql, args, UpdateFrags(State(), cols, vals))
    {
      var setClauses := new string[|cols|];
      for i := 0 to |cols|
        invariant setClauses[..i] == Setters(driver, cols)[..i]
      {
        setClauses[i] := QuoteIdent(driver, cols[i]) + " = ?";
      }
      assert setClauses[..] == Setters(driver, cols);
      var filter, wArgs := BuildWhere();
      args := vals + wArgs;
      var head := "UPDATE " + QuoteIdent(driver, table) + " SET ";
      sql := head + JoinWith(setClauses[..], ", ");
      RendersText("", [], [], head);
      SettersRender(driver, cols, vals);
      ghost var sets := SetFrags(driver, cols, vals);
      RendersBoth(head, [], Only(head), JoinWith(setClauses[..], ", "), vals, sets);
      if filter != "" {
        WhereTail(filter, wArgs, wheres);
        RendersBoth(sql, vals, Only(head) + sets, " WHERE " + filter, wArgs, Only(" WHERE ") + WhereFrags(wheres));
        sql := sql + (" WHERE " + filter);
      } else {
        assert Only(head) + sets + [] == Only(head) + sets;
        assert args == vals;
      }
    }

    method BuildDelete() returns (sql: string, args: seq<Value>)
      ensures Renders(sql, args, DeleteFrags(State()))
    {
      var filter, wArgs := BuildWhere();
      sql := "DELETE FROM " + QuoteIdent(driver, table);
      RendersText("", [], [], sql);
      if filter != "" {
        WhereTail(filter, wArgs, wheres);
        RendersBoth(sql, [], Only(sql), " WHERE " + filter, wArgs, Only(" WHERE ") + WhereFrags(wheres));
        sql := sql + (" WHERE " + filter);
      }
      args := wArgs;
    }

    method BuildDeleteStmt(now: Value) returns (sql: string, args: seq<Value>)
      ensures Renders(sql, args, DeleteStmtFrags(State(), now))
    {
      if softDelete {
        sql, args := BuildUpdate(["deleted_at"], [now]);
      } else {
        sql, args := BuildDelete();
      }
    }

    /** What Update sends; a builder without conditions is refused, unless it is a raw one. */
    method Update(cols: seq<string>, vals: seq<Value>) returns (sent: Option<(string, seq<Value>)>)
      requires |cols| == |vals|
      ensures sent.None? <==> wheres == [] && rawSQL == ""
      ensures sent.Some? ==> Renders(sent.value.0, sent.value.1, UpdateFrags(State(), cols, vals))
    {
      if |wheres| == 0 && rawSQL == "" {
        return None;
      }
      var sql, args := BuildUpdate(cols, vals);
      return Some((sql, args));
    }

    /** What Delete sends, with the same guard. */
    method Delete(now: Value) returns (sent: Option<(string, seq<Value>)>)
      ensures sent.None? <==> wheres == [] && rawSQL == ""
      ensures sent.Some? ==> Renders(sent.value.0, sent.value.1, DeleteStmtFrags(State(), now))
    {
      if |wheres| == 0 && rawSQL == "" {
        return None;
      }
      var sql, args := BuildDeleteStmt(now);
      return Some((sql, args));
    }

    /** Removes the rows of a soft-delete builder too. */
    method ForceDelete(now: Value) returns (sent: Option<(string, seq<Value>)>)
      modifies this
      ensures State() == old(State()).(softDelete := false)
      ensures sent.None? <==> wheres == [] && rawSQL == ""
      ensures sent.Some? ==> Renders(sent.value.0, sent.value.1, DeleteFrags(old(State())))
    {
      softDelete := false;
      sent := Delete(now);
    }
  }
}
