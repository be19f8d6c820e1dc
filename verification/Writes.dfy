/**
 INSERT, UPDATE and DELETE as a server reads them: the table, which value goes to
 which column, and the condition that decides about a row. Unlike a SELECT, a write
 has no guard against deleted rows.
 */
module Writes {
  import opened Options
  import opened Seqs
  import opened Sql
  import opened Filters
  import opened Reading
  import opened Statements

  // ----------------------------------------------------------------- lists

  /** Items with commas between them. */
  function Listed(items: seq<Pieces>): Pieces
  {
    if items == [] then []
    else if |items| == 1 then items[0]
    else Listed(items[..|items| - 1]) + Chars(", ") + items[|items| - 1]
  }

  /** The arguments, each in its place. */
  function Values(vals: seq<Value>): (items: seq<Pieces>)
    ensures |items| == |vals|
  {
    seq(|vals|, i requires 0 <= i < |vals| => [Val(vals[i])])
  }

  function Names(driver: Driver, cols: seq<string>): (items: seq<Pieces>)
    ensures |items| == |cols|
  {
    seq(|cols|, i requires 0 <= i < |cols| => Chars(QuoteIdent(driver, cols[i])))
  }

  /** column = value. */
  function Setting(driver: Driver, col: string, v: Value): Pieces
  {
    Chars(QuoteIdent(driver, col)) + (Chars(" = ") + [Val(v)])
  }

  function Settings(driver: Driver, cols: seq<string>, vals: seq<Value>): (items: seq<Pieces>)
    requires |cols| == |vals|
    ensures |items| == |cols|
  {
    seq(|cols|, i requires 0 <= i < |cols| => Setting(driver, cols[i], vals[i]))
  }

  lemma ListedMore(items: seq<Pieces>, item: Pieces)
    ensures Listed(items + [item]) == Listed(items) + ((if items == [] then [] else Chars(", ")) + item)
  {
    var more := items + [item];
    FrontOfSnoc(items, item);
    if items != [] {
      Assoc(Listed(items), Chars(", "), item);
    }
  }

  lemma OneValue(first: bool, v: Value)
    ensures Bind(if first then "?" else ", ?", [v]) == (if first then [] else Chars(", ")) + [Val(v)]
  {
    var none: seq<Value> := [];
    BindHole("?", "", [v], v, none);
    if !first {
      assert ", ?" == [','] + " ?" && " ?" == [' '] + "?";
      BindChar(", ?", ',', " ?", [v]);
      BindChar(" ?", ' ', "?", [v]);
      assert Chars(", ") == [Ch(',')] + [Ch(' ')];
    }
  }

  lemma {:induction false} ValuesSpell(vals: seq<Value>)
    ensures Bound(ValueFrags(vals)) == Listed(Values(vals))
  {
    if vals != [] {
      var n := |vals| - 1;
      var f := Frag(if n == 0 then "?" else ", ?", [vals[n]]);
      ValuesSpell(vals[..n]);
      BoundAppend(ValueFrags(vals[..n]), [f]);
      BoundOne(f);
      OneValue(n == 0, vals[n]);
      ListedMore(Values(vals[..n]), [Val(vals[n])]);
      assert Values(vals) == Values(vals[..n]) + [[Val(vals[n])]];
    }
  }

  lemma {:induction false} NamesSpell(driver: Driver, cols: seq<string>)
    ensures Chars(JoinWith(Quoted(driver, cols), ", ")) == Listed(Names(driver, cols))
  {
    var n := |cols| - 1;
    if |cols| == 1 {
    } else if |cols| > 1 {
      var front := cols[..n];
      NamesSpell(driver, front);
      assert Quoted(driver, cols)[..n] == Quoted(driver, front);
      assert Names(driver, cols)[..n] == Names(driver, front);
      var head := JoinWith(Quoted(driver, front), ", ");
      CharsAppend(head + ", ", QuoteIdent(driver, cols[n]));
      CharsAppend(head, ", ");
    }
  }

  lemma OneSetting(first: bool, name: string, v: Value)
    ensures Bound([Frag((if first then "" else ", ") + name, []), Frag(" = ?", [v])]) ==
            (if first then [] else Chars(", ")) + (Chars(name) + (Chars(" = ") + [Val(v)]))
  {
    var a, b := Frag((if first then "" else ", ") + name, []), Frag(" = ?", [v]);
    assert [a, b] == [a] + [b];
    BoundAppend([a], [b]);
    BoundOne(a);
    BoundOne(b);
    BindPlain(a.text);
    CharsAppend(if first then "" else ", ", name);
    EqualsValue(v);
    Assoc(if first then [] else Chars(", "), Chars(name), Chars(" = ") + [Val(v)]);
  }

  lemma EqualsValue(v: Value)
    ensures Bind(" = ?", [v]) == Chars(" = ") + [Val(v)]
  {
    var none: seq<Value> := [];
    assert " = ?" == " = " + "?" && none + [v] == [v];
    NoHolesMeansZero(" = ");
    BindAppend(" = ", "?", none, [v]);
    BindPlain(" = ");
    BindHole("?", "", [v], v, none);
  }

  lemma SettingStep(fs: seq<Frag>, items: seq<Pieces>, name: string, v: Value)
    requires Bound(fs) == Listed(items)
    ensures Bound(fs + [Frag((if items == [] then "" else ", ") + name, []), Frag(" = ?", [v])]) ==
            Listed(items + [Chars(name) + (Chars(" = ") + [Val(v)])])
  {
    BoundAppend(fs, [Frag((if items == [] then "" else ", ") + name, []), Frag(" = ?", [v])]);
    OneSetting(items == [], name, v);
    ListedMore(items, Chars(name) + (Chars(" = ") + [Val(v)]));
  }

  lemma SettingsGrow(driver: Driver, cols: seq<string>, vals: seq<Value>, n: nat)
    requires |cols| == |vals| == n + 1
    ensures Settings(driver, cols, vals)[..n] == Settings(driver, cols[..n], vals[..n])
    ensures Settings(driver, cols, vals)
         == Settings(driver, cols[..n], vals[..n]) + [Setting(driver, cols[n], vals[n])]
  {
  }

  lemma {:induction false} SettingsSpell(driver: Driver, cols: seq<string>, vals: seq<Value>)
    requires |cols| == |vals|
    ensures Bound(SetFrags(driver, cols, vals)) == Listed(Settings(driver, cols, vals))
  {
    if cols != [] {
      var n := |cols| - 1;
      SettingsSpell(driver, cols[..n], vals[..n]);
      SettingsGrow(driver, cols, vals, n);
      var items := Settings(driver, cols[..n], vals[..n]);
      SettingStep(SetFrags(driver, cols[..n], vals[..n]), items, QuoteIdent(driver, cols[n]), vals[n]);
    }
  }

  // ---------------------------------------------------------------- INSERT

  /** An INSERT names its columns and its values in the same order, one for one. */
  lemma InsertSpells(q: Query, cols: seq<string>, vals: seq<Value>)
    ensures Bound(InsertFrags(q, cols, vals)) ==
            Chars("INSERT INTO " + QuoteIdent(q.driver, q.table) + " ") + Group(Listed(Names(q.driver, cols)))
            + (Chars(" VALUES ") + Group(Listed(Values(vals))))
  {
    var start := "INSERT INTO " + QuoteIdent(q.driver, q.table) + " (";
    var names := JoinWith(Quoted(q.driver, cols), ", ");
    var head := start + names + ") VALUES (";
    BoundAppend(Only(head), ValueFrags(vals));
    BoundAppend(Only(head) + ValueFrags(vals), Only(")"));
    BoundOnly(head);
    BoundOnly(")");
    ValuesSpell(vals);
    NamesSpell(q.driver, cols);
    CharsAppend(start + names, ") VALUES (");
    CharsAppend(start, names);
    InsertHead(QuoteIdent(q.driver, q.table));
    InsertMiddle();
    InsertGroups(Chars("INSERT INTO " + QuoteIdent(q.driver, q.table) + " "), Chars(names), Chars(" VALUES "),
                 Listed(Values(vals)));
  }

  lemma InsertHead(name: string)
    ensures Chars("INSERT INTO " + name + " (") == Chars("INSERT INTO " + name + " ") + [Ch('(')]
  {
    CharsAppend("INSERT INTO " + name + " ", "(");
    assert "INSERT INTO " + name + " " + "(" == "INSERT INTO " + name + " (";
    assert Chars("(") == [Ch('(')];
  }

  lemma InsertMiddle()
    ensures Chars(") VALUES (") == [Ch(')')] + Chars(" VALUES ") + [Ch('(')]
    ensures Chars(")") == [Ch(')')]
  {
  }

  lemma InsertGroups(a: Pieces, names: Pieces, v: Pieces, vals: Pieces)
    ensures a + [Ch('(')] + names + ([Ch(')')] + v + [Ch('(')]) + vals + [Ch(')')] ==
            a + Group(names) + (v + Group(vals))
  {
  }

  // ----------------------------------------------------- UPDATE and DELETE

  /** What an UPDATE or a DELETE says. */
  datatype Change = Change(target: Pieces, sets: Option<Pieces>, where: Option<Pieces>)

  /** The condition is split off first, then the assignments. */
  function ReadChange(s: Pieces): Change
  {
    var where := PartAt(s, WHERE);
    var sets := PartAt(where.before, SET);
    Change(sets.before, sets.after, where.after)
  }

  function ChainPart(ws: seq<Where>): Option<Pieces>
  {
    if ws == [] then None else Some(ChainText(ws))
  }

  function UpdateOf(q: Query, cols: seq<string>, vals: seq<Value>): Change
    requires |cols| == |vals|
  {
    Change(Chars("UPDATE") + BLANK + Chars(QuoteIdent(q.driver, q.table)),
           Some(Listed(Settings(q.driver, cols, vals))), ChainPart(q.wheres))
  }

  function DeleteOf(q: Query): Change
  {
    Change(Chars("DELETE") + BLANK + (Chars("FROM") + BLANK + Chars(QuoteIdent(q.driver, q.table))), None,
           ChainPart(q.wheres))
  }

  /** The row is changed: it passes the condition, or there is none. */
  predicate Touches(c: Change, atom: Pieces -> bool)
  {
    c.where.Some? ==> EvalOr(c.where.value, atom)
  }

  ghost predicate LegibleName(driver: Driver, name: string)
  {
    Inert(Chars(QuoteIdent(driver, name)), SET) && Inert(Chars(QuoteIdent(driver, name)), WHERE)
  }

  ghost predicate LegibleNames(driver: Driver, cols: seq<string>)
  {
    forall i :: 0 <= i < |cols| ==> LegibleName(driver, cols[i])
  }

  lemma ValueInert(v: Value, comma: bool, k: Keyword)
    ensures Inert([Val(v)] + if comma then [Ch(',')] else [], k)
  {
    var t := [Val(v)] + if comma then [Ch(',')] else [];
    NoParenBalanced(t);
    assert t[0] == Val(v);
    assert |Chars(Spelling(k))| > 0 && Chars(Spelling(k))[0].Ch?;
    InertToken(t, k);
  }

  /** An assignment, with or without the comma behind it. */
  lemma SettingInert(driver: Driver, col: string, v: Value, comma: bool, k: Keyword)
    requires Inert(Chars(QuoteIdent(driver, col)), k)
    ensures Inert(Setting(driver, col, v) + if comma then [Ch(',')] else [], k)
  {
    var name, end: Pieces := Chars(QuoteIdent(driver, col)), if comma then [Ch(',')] else [];
    ValueInert(v, comma, k);
    assert "="[0] != Spelling(k)[0];
    InertAround(name, "=", [Val(v)] + end, k);
    EqualsChars();
    Regrouped(name, Chars(" = "), [Val(v)], end);
  }

  lemma EqualsChars()
    ensures Chars(" = ") == Chars(" " + "=" + " ")
  {
  }

  lemma Regrouped(a: Pieces, b: Pieces, c: Pieces, d: Pieces)
    ensures a + (b + (c + d)) == a + (b + c) + d
  {
  }

  ghost predicate NamesInert(driver: Driver, cols: seq<string>, k: Keyword)
  {
    forall i :: 0 <= i < |cols| ==> Inert(Chars(QuoteIdent(driver, cols[i])), k)
  }

  lemma {:induction false} SettingsInert(
    driver: Driver, cols: seq<string>, vals: seq<Value>, comma: bool, k: Keyword)
    requires |cols| == |vals| && cols != [] && NamesInert(driver, cols, k)
    ensures Inert(Listed(Settings(driver, cols, vals)) + if comma then [Ch(',')] else [], k)
  {
    var n := |cols| - 1;
    var front, item := Settings(driver, cols[..n], vals[..n]), Setting(driver, cols[n], vals[n]);
    SettingsGrow(driver, cols, vals, n);
    SettingInert(driver, cols[n], vals[n], comma, k);
    ListedMore(front, item);
    if n > 0 {
      SettingsInert(driver, cols[..n], vals[..n], true, k);
      InertMore(Listed(front), item, if comma then [Ch(',')] else [], k);
    }
  }

  lemma InertMore(front: Pieces, item: Pieces, end: Pieces, k: Keyword)
    requires Inert(front + [Ch(',')], k) && Inert(item + end, k)
    ensures Inert(front + (Chars(", ") + item) + end, k)
  {
    InertJoin(front + [Ch(',')], item + end, k);
    CommaBlank(front, item, end);
  }

  lemma CommaBlank(a: Pieces, b: Pieces, end: Pieces)
    ensures a + (Chars(", ") + b) + end == a + [Ch(',')] + BLANK + (b + end)
  {
    assert Chars(", ") == [Ch(',')] + BLANK;
  }

  lemma TargetInert(v: string, t: Pieces, k: Keyword)
    requires v == "UPDATE" || v == "DELETE" || v == "FROM"
    requires (k == SET || k == WHERE) && Inert(t, k)
    ensures Inert(Chars(v) + BLANK + t, k)
  {
    assert v[0] != Spelling(k)[0];
    InertPlain(v, k);
    InertJoin(Chars(v), t, k);
  }

  /** Such a change, written out. */
  function WriteChange(c: Change): Pieces
  {
    Add(Add(c.target, SET, c.sets), WHERE, c.where)
  }

  lemma ChangeReadsBack(c: Change)
    requires Inert(c.target, SET) && Inert(c.target, WHERE) && (c.sets.Some? ==> Inert(c.sets.value, WHERE))
    ensures ReadChange(WriteChange(c)) == c
  {
    AddInert(c.target, SET, c.sets, WHERE);
    AddParts(Add(c.target, SET, c.sets), WHERE, c.where);
    AddParts(c.target, SET, c.sets);
  }

  lemma ChainSpells(head: seq<Frag>, ws: seq<Where>)
    ensures Bound(head + if ws == [] then [] else Only(" WHERE ") + WhereFrags(ws)) ==
            Add(Bound(head), WHERE, ChainPart(ws))
  {
    if ws == [] {
      assert head + [] == head;
    } else {
      BoundAppend(head, Only(" WHERE ") + WhereFrags(ws));
      BoundAppend(Only(" WHERE "), WhereFrags(ws));
      BoundOnly(" WHERE ");
      WhereWord();
      WhereFragsSpellTheChain(ws);
    }
  }

  lemma UpdateSpells(q: Query, cols: seq<string>, vals: seq<Value>)
    requires |cols| == |vals|
    ensures Bound(UpdateFrags(q, cols, vals)) == WriteChange(UpdateOf(q, cols, vals))
  {
    var name := QuoteIdent(q.driver, q.table);
    var head, sets := Only("UPDATE " + name + " SET "), SetFrags(q.driver, cols, vals);
    ChainSpells(head + sets, q.wheres);
    BoundAppend(head, sets);
    BoundOnly("UPDATE " + name + " SET ");
    SettingsSpell(q.driver, cols, vals);
    UpdateHead(name);
    Assoc(Chars("UPDATE") + BLANK + Chars(name), Word(SET), Listed(Settings(q.driver, cols, vals)));
  }

  lemma UpdateHead(name: string)
    ensures Chars("UPDATE " + name + " SET ") == Chars("UPDATE") + BLANK + Chars(name) + Word(SET)
  {
    CharsAppend("UPDATE " + name, " SET ");
    CharsAppend("UPDATE ", name);
    assert Chars("UPDATE ") == Chars("UPDATE") + BLANK;
    assert Chars(" SET ") == Word(SET);
  }

  lemma DeleteSpells(q: Query)
    ensures Bound(DeleteFrags(q)) == WriteChange(DeleteOf(q))
  {
    var name := QuoteIdent(q.driver, q.table);
    ChainSpells(Only("DELETE FROM " + name), q.wheres);
    BoundOnly("DELETE FROM " + name);
    DeleteHead(name);
  }

  lemma DeleteHead(name: string)
    ensures Chars("DELETE FROM " + name) == Chars("DELETE") + BLANK + (Chars("FROM") + BLANK + Chars(name))
  {
    CharsAppend("DELETE FROM ", name);
    assert Chars("DELETE FROM ") == Chars("DELETE") + BLANK + Chars("FROM") + BLANK;
  }

  /** An update reads back as its table, value by value its assignments, and its chain. */
  lemma UpdateReadsBack(q: Query, cols: seq<string>, vals: seq<Value>)
    requires |cols| == |vals| && cols != [] && LegibleName(q.driver, q.table) && LegibleNames(q.driver, cols)
    ensures ReadChange(Bound(UpdateFrags(q, cols, vals))) == UpdateOf(q, cols, vals)
  {
    UpdateSpells(q, cols, vals);
    TargetInert("UPDATE", Chars(QuoteIdent(q.driver, q.table)), SET);
    TargetInert("UPDATE", Chars(QuoteIdent(q.driver, q.table)), WHERE);
    forall i | 0 <= i < |cols|
      ensures Inert(Chars(QuoteIdent(q.driver, cols[i])), WHERE)
    {
      assert LegibleName(q.driver, cols[i]);
    }
    SettingsInert(q.driver, cols, vals, false, WHERE);
    var sets := Listed(Settings(q.driver, cols, vals));
    assert sets + [] == sets;
    ChangeReadsBack(UpdateOf(q, cols, vals));
  }

  lemma DeleteReadsBack(q: Query)
    requires LegibleName(q.driver, q.table)
    ensures ReadChange(Bound(DeleteFrags(q))) == DeleteOf(q)
  {
    DeleteSpells(q);
    var name := Chars(QuoteIdent(q.driver, q.table));
    TargetInert("FROM", name, SET);
    TargetInert("FROM", name, WHERE);
    TargetInert("DELETE", Chars("FROM") + BLANK + name, SET);
    TargetInert("DELETE", Chars("FROM") + BLANK + name, WHERE);
    ChangeReadsBack(DeleteOf(q));
  }

  /**
   Delete on a soft-delete builder reads as an update that stamps deleted_at and
   nothing else; on any other builder it removes the rows.
   */
  lemma DeleteStmtReadsBack(q: Query, now: Value)
    requires LegibleName(q.driver, q.table)
    ensures ReadChange(Bound(DeleteStmtFrags(q, now))) ==
            if q.softDelete
            then UpdateOf(q, ["deleted_at"], [now]).(sets := Some(Setting(q.driver, "deleted_at", now)))
            else DeleteOf(q)
  {
    DeleteReadsBack(q);
    StampReadsBack(q, now);
  }

  lemma StampReadsBack(q: Query, now: Value)
    requires LegibleName(q.driver, q.table)
    ensures ReadChange(Bound(UpdateFrags(q, ["deleted_at"], [now]))) ==
            UpdateOf(q, ["deleted_at"], [now]).(sets := Some(Setting(q.driver, "deleted_at", now)))
  {
    var cols := ["deleted_at"];
    QuotedInert(q.driver, cols[0], SET);
    QuotedInert(q.driver, cols[0], WHERE);
    UpdateReadsBack(q, cols, [now]);
    OneIsListed(q.driver, cols[0], now);
  }

  lemma OneIsListed(driver: Driver, col: string, v: Value)
    ensures Listed(Settings(driver, [col], [v])) == Setting(driver, col, v)
  {
  }

  /** A write changes exactly the rows of its chain, deleted ones included; without conditions, all rows. */
  lemma WritesTouchTheChain(q: Query, cols: seq<string>, vals: seq<Value>, atom: Pieces -> bool)
    requires |cols| == |vals| && cols != [] && LegibleName(q.driver, q.table) && LegibleNames(q.driver, cols)
    requires AllBalanced(q.wheres)
    ensures Touches(ReadChange(Bound(UpdateFrags(q, cols, vals))), atom) <==>
            q.wheres == [] || ChainHolds(q.wheres, atom)
    ensures Touches(ReadChange(Bound(DeleteFrags(q))), atom) <==> q.wheres == [] || ChainHolds(q.wheres, atom)
  {
    UpdateReadsBack(q, cols, vals);
    DeleteReadsBack(q);
    if q.wheres != [] {
      ChainMeans(q.wheres, atom);
    }
  }

  /** However the conditions of a row turn out, it is changed: exactly when there are none. */
  lemma AllRowsExactly(q: Query, cols: seq<string>, vals: seq<Value>)
    requires |cols| == |vals| && cols != [] && LegibleName(q.driver, q.table) && LegibleNames(q.driver, cols)
    requires AllBalanced(q.wheres)
    ensures (forall atom: Pieces -> bool :: Touches(ReadChange(Bound(UpdateFrags(q, cols, vals))), atom)) <==>
            q.wheres == []
  {
    UpdateReadsBack(q, cols, vals);
    TouchesAllExactly(UpdateOf(q, cols, vals), q.wheres);
  }

  lemma TouchesAllExactly(c: Change, ws: seq<Where>)
    requires c.where == ChainPart(ws) && AllBalanced(ws)
    ensures (forall atom: Pieces -> bool :: Touches(c, atom)) <==> ws == []
  {
    if ws != [] {
      var never := (p: Pieces) => false;
      ChainMeans(ws, never);
      NothingHolds(ws, never);
      assert !Touches(c, never);
    }
  }

  lemma NothingHolds(ws: seq<Where>, atom: Pieces -> bool)
    requires forall p :: !atom(p)
    ensures !ChainHolds(ws, atom)
  {
    forall i | 0 <= i < |ws| && Opens(ws, i)
      ensures !AlternativeHolds(ws, i, atom)
    {
      assert SameAlternative(ws, i, i);
    }
  }
}
