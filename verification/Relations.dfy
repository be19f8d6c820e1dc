/**
 Eager loading: one batched IN query and a grouping pass stand in for one query
 per parent.  Rows and parents are kept in the order in which they were scanned.
 */
module Relations {
  import opened Options
  import opened Seqs
  import opened Sql
  import opened Builders
  import opened Placeholders
  import opened Filters
  import opened Reading
  import opened Statements
  import opened Writes

  type Key = Value

  /** A scanned parent with its key, its foreign key and its two relation fields. */
  datatype Parent<R> = Parent(pk: Key, fk: Key, children: seq<R>, owner: Option<R>)

  /** The related table: its names, its rows, and what the server answers to the clauses it reads. */
  datatype Source<!R> = Source(
    driver: Driver,
    table: string,
    column: string,
    rows: seq<R>,
    key: R -> Key,
    select: Clauses -> seq<R>)

  // --------------------------------------------------------------- queries

  /** SELECT * FROM table WHERE column IN (?, ..., ?). */
  function Head(driver: Driver, table: string, column: string): string
  {
    "SELECT * FROM " + QuoteIdent(driver, table) + " WHERE " + QuoteIdent(driver, column) + " IN ("
  }

  function InFrags(head: string, keys: seq<Key>): seq<Frag>
  {
    Only(head) + ValueFrags(keys) + Only(")")
  }

  /** The rows whose key is among keys, in row order. */
  function Matching<R>(rows: seq<R>, key: R -> Key, keys: seq<Key>): seq<R>
  {
    if rows == [] then []
    else
      var last := rows[|rows| - 1];
      Matching(rows[..|rows| - 1], key, keys) + if key(last) in keys then [last] else []
  }

  /** column IN (k1, ..., kn), on the whole table. */
  function InClauses(driver: Driver, table: string, column: string, keys: seq<Key>): Clauses
  {
    Clauses(
      Chars("*"), Chars(QuoteIdent(driver, table)),
      Some(Chars(QuoteIdent(driver, column)) + (Chars(" IN ") + Group(Listed(Values(keys))))),
      None, None, None, None, None)
  }

  /** What the query for these keys answers. */
  function Answer<R>(src: Source<R>, keys: seq<Key>): seq<R>
  {
    src.select(Read(Bound(InFrags(Head(src.driver, src.table, src.column), keys))))
  }

  /** The server filters the table by the IN list. */
  ghost predicate Answers<R(!new)>(src: Source<R>)
  {
    forall keys :: keys != [] ==>
      src.select(InClauses(src.driver, src.table, src.column, keys)) == Matching(src.rows, src.key, keys)
  }

  /** Table and column names hold no placeholder characters, and no keyword between blanks. */
  ghost predicate Named<R>(src: Source<R>)
  {
    && NoHoles(src.table) && NoHoles(src.column) && '$' !in src.table && '$' !in src.column
    && Legible(Chars(QuoteIdent(src.driver, src.table))) && Legible(Chars(QuoteIdent(src.driver, src.column)))
  }

  lemma {:induction false} ListHasNoParentheses(keys: seq<Key>)
    ensures Ch('(') !in Listed(Values(keys)) && Ch(')') !in Listed(Values(keys))
  {
    if keys != [] {
      var n := |keys| - 1;
      ListHasNoParentheses(keys[..n]);
      ListedMore(Values(keys[..n]), [Val(keys[n])]);
      assert Values(keys) == Values(keys[..n]) + [[Val(keys[n])]];
    }
  }

  lemma InConditionIsLegible(name: Pieces, keys: seq<Key>)
    requires Legible(name)
    ensures Legible(name + (Chars(" IN ") + Group(Listed(Values(keys)))))
  {
    ListHasNoParentheses(keys);
    NoParenBalanced(Listed(Values(keys)));
    InWord();
    forall k | k != SET
      ensures Inert(name + (Chars(" IN ") + Group(Listed(Values(keys)))), k)
    {
      InertGroup(Listed(Values(keys)), k);
      assert "IN"[0] != Spelling(k)[0];
      InertAround(name, "IN", Group(Listed(Values(keys))), k);
    }
  }

  lemma InWord()
    ensures Chars(" IN ") == Chars(" " + "IN" + " ")
  {
  }

  lemma HeadSpells(t: string, c: string)
    ensures Chars("SELECT * FROM " + t + " WHERE " + c + " IN (") ==
            Chars("SELECT") + BLANK + Chars("*") + (Word(FROM) + Chars(t))
            + (Word(WHERE) + (Chars(c) + (Chars(" IN ") + [Ch('(')])))
  {
    CharsAppend("SELECT * FROM " + t + " WHERE " + c, " IN (");
    CharsAppend("SELECT * FROM " + t + " WHERE ", c);
    CharsAppend("SELECT * FROM " + t, " WHERE ");
    CharsAppend("SELECT * FROM ", t);
    assert Chars("SELECT * FROM ") == Chars("SELECT") + BLANK + Chars("*") + Word(FROM);
    WhereWord();
    assert Chars(" IN (") == Chars(" IN ") + [Ch('(')];
    HeadRegroups(Chars("SELECT") + BLANK + Chars("*"), Word(FROM), Chars(t), Word(WHERE), Chars(c), Chars(" IN "));
  }

  lemma HeadRegroups(a: Pieces, f: Pieces, t: Pieces, w: Pieces, c: Pieces, n: Pieces)
    ensures a + f + t + w + c + (n + [Ch('(')]) == a + (f + t) + (w + (c + (n + [Ch('(')])))
  {
  }

  lemma Closed(a: Pieces, w: Pieces, c: Pieces, n: Pieces, list: Pieces)
    ensures a + (w + (c + (n + [Ch('(')]))) + list + [Ch(')')] == a + (w + (c + (n + Group(list))))
  {
  }

  lemma InSpells(driver: Driver, table: string, column: string, keys: seq<Key>)
    ensures Bound(InFrags(Head(driver, table, column), keys)) == Write(InClauses(driver, table, column, keys))
  {
    var head := Head(driver, table, column);
    var t, c := QuoteIdent(driver, table), QuoteIdent(driver, column);
    BoundAppend(Only(head) + ValueFrags(keys), Only(")"));
    BoundAppend(Only(head), ValueFrags(keys));
    BoundOnly(head);
    BoundOnly(")");
    CloseChars();
    ValuesSpell(keys);
    HeadSpells(t, c);
    Closed(Chars("SELECT") + BLANK + Chars("*") + (Word(FROM) + Chars(t)), Word(WHERE), Chars(c), Chars(" IN "),
           Listed(Values(keys)));
  }

  /** The IN query reads back as all columns of the table, where the column is among the keys. */
  lemma InReadsBack(driver: Driver, table: string, column: string, keys: seq<Key>)
    requires Legible(Chars(QuoteIdent(driver, table))) && Legible(Chars(QuoteIdent(driver, column)))
    ensures Read(Bound(InFrags(Head(driver, table, column), keys))) == InClauses(driver, table, column, keys)
  {
    InSpells(driver, table, column, keys);
    ColumnIsLegible("*");
    InConditionIsLegible(Chars(QuoteIdent(driver, column)), keys);
    ReadsBack(InClauses(driver, table, column, keys));
  }

  lemma AnswerIsMatching<R(!new)>(src: Source<R>, keys: seq<Key>)
    requires Named(src) && Answers(src) && keys != []
    ensures Answer(src, keys) == Matching(src.rows, src.key, keys)
  {
    InReadsBack(src.driver, src.table, src.column, keys);
  }

  /** Grouping the batch by one of its keys gives what that key alone selects. */
  lemma {:induction false} GroupOfBatch<R>(rows: seq<R>, key: R -> Key, keys: seq<Key>, k: Key)
    requires k in keys
    ensures Matching(Matching(rows, key, keys), key, [k]) == Matching(rows, key, [k])
  {
    if rows != [] {
      var front, last := rows[..|rows| - 1], rows[|rows| - 1];
      GroupOfBatch(front, key, keys, k);
      var batch := Matching(front, key, keys);
      if key(last) in keys {
        assert (batch + [last])[..|batch|] == batch;
      } else {
        assert batch + [] == batch;
      }
    }
  }

  // ------------------------------------------------------------ statements

  /** A "?" is never followed by a digit. */
  ghost predicate HolesApart(s: string)
  {
    forall i :: 0 <= i < |s| - 1 && s[i] == '?' ==> !IsDigit(s[i + 1])
  }

  lemma ApartAppend(a: string, b: string)
    requires HolesApart(a) && HolesApart(b) && !DigitFirst(b)
    ensures HolesApart(a + b)
  {
    var s := a + b;
    forall i | 0 <= i < |s| - 1 && s[i] == '?' ensures !IsDigit(s[i + 1]) {
      if i >= |a| {
        assert s[i] == b[i - |a|] && s[i + 1] == b[i - |a| + 1];
      } else if i + 1 < |a| {
        assert s[i] == a[i] && s[i + 1] == a[i + 1];
      } else {
        assert s[i + 1] == b[0];
      }
    }
  }

  lemma {:induction false} ValuesApart(vals: seq<Value>)
    ensures HolesApart(Texts(ValueFrags(vals))) && '$' !in Texts(ValueFrags(vals))
  {
    if vals != [] {
      var n := |vals| - 1;
      ValuesApart(vals[..n]);
      var f := Frag(if n == 0 then "?" else ", ?", [vals[n]]);
      Emit(ValueFrags(vals[..n]), f);
      MarkIsApart(f.text, n == 0);
      ApartAppend(Texts(ValueFrags(vals[..n])), f.text);
    }
  }

  lemma MarkIsApart(s: string, first: bool)
    requires s == if first then "?" else ", ?"
    ensures HolesApart(s) && '$' !in s && !DigitFirst(s)
  {
  }

  lemma {:induction false} DoubledHasNo(s: string, mark: char, c: char)
    requires c !in s && c != mark
    ensures c !in Doubled(s, mark)
  {
    if s != "" {
      assert s[0] in s;
      DoubledHasNo(s[1..], mark, c);
    }
  }

  lemma QuoteHasNo(driver: Driver, s: string, c: char)
    requires c !in s && c != '\"' && c != '`'
    ensures c !in QuoteIdent(driver, s)
  {
    DoubledHasNo(s, if driver.Postgres? then '\"' else '`', c);
  }

  lemma HeadHasNo(driver: Driver, table: string, column: string)
    requires NoHoles(table) && NoHoles(column) && '$' !in table && '$' !in column
    ensures NoHoles(Head(driver, table, column)) && '$' !in Head(driver, table, column)
  {
    QuoteHasNo(driver, table, '?');
    QuoteHasNo(driver, table, '$');
    QuoteHasNo(driver, column, '?');
    QuoteHasNo(driver, column, '$');
  }

  lemma InTextSpells(head: string, keys: seq<Key>)
    ensures Texts(InFrags(head, keys)) == head + Texts(ValueFrags(keys)) + ")"
    ensures Args(InFrags(head, keys)) == Args(ValueFrags(keys))
  {
    TextsOne(Frag(head, []));
    TextsAppend(Only(head), ValueFrags(keys));
    Emit(Only(head) + ValueFrags(keys), Frag(")", []));
  }

  lemma InTextIsClean(head: string, keys: seq<Key>, count: nat)
    requires NoHoles(head) && '$' !in head
    ensures Clean(Texts(InFrags(head, keys)), count)
  {
    InTextSpells(head, keys);
    ValuesApart(keys);
    var marks := Texts(ValueFrags(keys));
    assert HolesApart(head);
    ApartAppend(marks, ")");
    MarksFirst(keys);
    ApartAppend(head, marks);
    ApartAppend(head + marks, ")");
    OrdinaryTextIsClean(head + marks + ")", count);
  }

  lemma {:induction false} MarksFirst(keys: seq<Key>)
    ensures !DigitFirst(Texts(ValueFrags(keys)))
  {
    if keys != [] {
      var n := |keys| - 1;
      MarksFirst(keys[..n]);
      Emit(ValueFrags(keys[..n]), Frag(if n == 0 then "?" else ", ?", [keys[n]]));
    }
  }

  lemma InIsAligned(head: string, keys: seq<Key>)
    requires NoHoles(head)
    ensures AllAligned(InFrags(head, keys))
  {
    OnlyAligned(head);
    ValuesAreAligned(keys);
    OnlyAligned(")");
  }

  /** The IN query reaches either server with every key in its own place. */
  lemma InIsSent(head: string, keys: seq<Key>, sql: string)
    requires NoHoles(head) && '$' !in head && Renders(sql, keys, InFrags(head, keys))
    ensures Bind(sql, keys) == Bound(InFrags(head, keys))
    ensures BindDollar(Numbered(sql, 0), keys) == Bound(InFrags(head, keys))
  {
    InIsAligned(head, keys);
    ArgumentsLandInPlace(InFrags(head, keys));
    InTextIsClean(head, keys, |keys|);
    assert keys[0..] == keys;
    RenumberingKeepsMeaning(sql, 0, keys);
  }

  method InPlaceholders(vals: seq<Key>) returns (marks: string, args: seq<Key>)
    ensures Renders(marks, args, ValueFrags(vals)) && args == vals
  {
    var ph := new string[|vals|];
    for i := 0 to |vals|
      invariant ph[..i] == Marks(i)
    {
      ph[i] := "?";
    }
    assert ph[..] == Marks(|vals|);
    ValuesRender(vals);
    return JoinWith(ph[..], ", "), vals;
  }

  /** Runs the batched query. */
  method Fetch<R>(src: Source<R>, keys: seq<Key>) returns (rows: seq<R>)
    ensures Named(src) ==> rows == Answer(src, keys)
  {
    var marks, args := InPlaceholders(keys);
    var head := Head(src.driver, src.table, src.column);
    var sql := head + marks + ")";
    InTextSpells(head, keys);
    var out, outArgs := NormalizePlaceholders(src.driver, sql, args);
    if Named(src) {
      HeadHasNo(src.driver, src.table, src.column);
      InIsSent(head, keys, sql);
    }
    rows := src.select(Read(if src.driver.Postgres? then BindDollar(out, outArgs) else Bind(out, outArgs)));
  }

  // ---------------------------------------------------------- collecting

  /** Each value once, where it first appears. */
  function Distinct(ks: seq<Key>): seq<Key>
  {
    if ks == [] then []
    else
      var front, last := ks[..|ks| - 1], ks[|ks| - 1];
      Distinct(front) + if last in front then [] else [last]
  }

  /** No value is lost, none is repeated. */
  lemma {:induction false} DistinctKeepsAll(ks: seq<Key>)
    ensures forall k :: k in Distinct(ks) <==> k in ks
    ensures forall i, j :: 0 <= i < j < |Distinct(ks)| ==> Distinct(ks)[i] != Distinct(ks)[j]
  {
    if ks != [] {
      var front, last := ks[..|ks| - 1], ks[|ks| - 1];
      DistinctKeepsAll(front);
      assert ks == front + [last];
    }
  }

  lemma NoKeysNoParents(ks: seq<Key>)
    ensures ks != [] ==> Distinct(ks) != []
  {
    if ks != [] {
      var k := ks[0];
      assert k in ks;
      DistinctKeepsAll(ks);
      assert k in Distinct(ks);
    }
  }

  function PKs<R>(ps: seq<Parent<R>>): (r: seq<Key>)
    ensures |r| == |ps|
  {
    seq(|ps|, i requires 0 <= i < |ps| => ps[i].pk)
  }

  function FKs<R>(ps: seq<Parent<R>>): (r: seq<Key>)
    ensures |r| == |ps|
  {
    seq(|ps|, i requires 0 <= i < |ps| => ps[i].fk)
  }

  /** The loop shared by the two collectors. */
  method Collect(ks: seq<Key>) returns (keys: seq<Key>)
    ensures keys == Distinct(ks)
  {
    keys := [];
    var seen: set<Key> := {};
    for i := 0 to |ks|
      invariant forall k :: k in seen <==> k in ks[..i]
      invariant keys == Distinct(ks[..i])
    {
      assert ks[..i + 1][..i] == ks[..i];
      assert ks[..i + 1] == ks[..i] + [ks[i]];
      if ks[i] !in seen {
        seen := seen + {ks[i]};
        keys := keys + [ks[i]];
      }
    }
    assert ks[..|ks|] == ks;
  }

  // ------------------------------------------------------------ grouping

  /** Every key with rows maps to exactly its rows, in row order. */
  ghost predicate GroupsOf<R(!new)>(m: map<Key, seq<R>>, rows: seq<R>, key: R -> Key)
  {
    forall k :: GroupAt(m, Matching(rows, key, [k]), k)
  }

  ghost predicate GroupAt<R(!new)>(m: map<Key, seq<R>>, found: seq<R>, k: Key)
  {
    (k in m <==> found != []) && (k in m ==> m[k] == found)
  }

  lemma OneMoreRow<R>(rows: seq<R>, key: R -> Key, r: R, k: Key)
    ensures Matching(rows + [r], key, [k]) == Matching(rows, key, [k]) + if key(r) == k then [r] else []
  {
    assert (rows + [r])[..|rows|] == rows;
  }

  lemma GroupsGrow<R(!new)>(m: map<Key, seq<R>>, rows: seq<R>, key: R -> Key, r: R)
    requires GroupsOf(m, rows, key)
    ensures GroupsOf(m[key(r) := (if key(r) in m then m[key(r)] else []) + [r]], rows + [r], key)
  {
    var m' := m[key(r) := (if key(r) in m then m[key(r)] else []) + [r]];
    forall k
      ensures GroupAt(m', Matching(rows + [r], key, [k]), k)
    {
      assert GroupAt(m, Matching(rows, key, [k]), k);
      OneMoreRow(rows, key, r, k);
    }
  }

  lemma GroupsAreNotEmpty<R(!new)>(m: map<Key, seq<R>>, rows: seq<R>, key: R -> Key)
    requires GroupsOf(m, rows, key)
    ensures forall k :: k in m ==> m[k] != []
  {
    forall k | k in m
      ensures m[k] != []
    {
      assert GroupAt(m, Matching(rows, key, [k]), k);
    }
  }

  method BuildFKMap<R(!new)>(rows: seq<R>, key: R -> Key) returns (m: map<Key, seq<R>>)
    ensures GroupsOf(m, rows, key)
  {
    m := map[];
    for i := 0 to |rows|
      invariant GroupsOf(m, rows[..i], key)
    {
      var r := rows[i];
      var k := key(r);
      FrontAndLast(rows[..i + 1], i);
      assert rows[..i + 1][..i] == rows[..i];
      GroupsGrow(m, rows[..i], key, r);
      m := m[k := (if k in m then m[k] else []) + [r]];
    }
    assert rows[..|rows|] == rows;
  }

  /** Every key with rows maps to the last of them. */
  ghost predicate LastOf<R(!new)>(m: map<Key, R>, rows: seq<R>, key: R -> Key)
  {
    forall k :: LastAt(m, Matching(rows, key, [k]), k)
  }

  ghost predicate LastAt<R(!new)>(m: map<Key, R>, found: seq<R>, k: Key)
  {
    (k in m <==> found != []) && (k in m ==> m[k] == found[|found| - 1])
  }

  lemma LastGrows<R(!new)>(m: map<Key, R>, rows: seq<R>, key: R -> Key, r: R)
    requires LastOf(m, rows, key)
    ensures LastOf(m[key(r) := r], rows + [r], key)
  {
    forall k
      ensures LastAt(m[key(r) := r], Matching(rows + [r], key, [k]), k)
    {
      assert LastAt(m, Matching(rows, key, [k]), k);
      OneMoreRow(rows, key, r, k);
    }
  }

  method BuildPKMap<R(!new)>(rows: seq<R>, key: R -> Key) returns (m: map<Key, R>)
    ensures LastOf(m, rows, key)
  {
    m := map[];
    for i := 0 to |rows|
      invariant LastOf(m, rows[..i], key)
    {
      var r := rows[i];
      var k := key(r);
      FrontAndLast(rows[..i + 1], i);
      assert rows[..i + 1][..i] == rows[..i];
      LastGrows(m, rows[..i], key, r);
      m := m[k := r];
    }
    assert rows[..|rows|] == rows;
  }

  // ------------------------------------------------------------- has_many

  /** A parent whose query found rows gets them; one without keeps its field. */
  function WithChildren<R>(p: Parent<R>, found: seq<R>): Parent<R>
  {
    if found == [] then p else p.(children := found)
  }

  function RowsFor<R>(related: map<Key, seq<R>>, k: Key): seq<R>
  {
    if k in related then related[k] else []
  }

  method AssignHasMany<R(!new)>(parents: array<Parent<R>>, related: map<Key, seq<R>>)
    requires forall k :: k in related ==> related[k] != []
    modifies parents
    ensures forall i :: 0 <= i < parents.Length ==>
              parents[i] == WithChildren(old(parents[i]), RowsFor(related, old(parents[i]).pk))
  {
    for i := 0 to parents.Length
      invariant forall j :: i <= j < parents.Length ==> parents[j] == old(parents[j])
      invariant forall j :: 0 <= j < i ==>
                  parents[j] == WithChildren(old(parents[j]), RowsFor(related, old(parents[j]).pk))
    {
      var pk := parents[i].pk;
      if pk in related {
        var rows := related[pk];
        var sliceVal: seq<R> := [];
        for n := 0 to |rows|
          invariant sliceVal == rows[..n]
        {
          sliceVal := sliceVal + [rows[n]];
        }
        assert sliceVal == rows;
        parents[i] := parents[i].(children := sliceVal);
      }
    }
  }

  /** Each parent is given what its own query answers. */
  method LoadHasMany<R(!new)>(src: Source<R>, parents: array<Parent<R>>)
    modifies parents
    ensures Named(src) && Answers(src) ==>
              forall i :: 0 <= i < parents.Length ==>
                parents[i] == WithChildren(old(parents[i]), Answer(src, [old(parents[i]).pk]))
  {
    ghost var was := parents[..];
    var keys := Collect(PKs(parents[..]));
    if |keys| == 0 {
      NoKeysNoParents(PKs(was));
      return;
    }
    var rows := Fetch(src, keys);
    var related := BuildFKMap(rows, src.key);
    GroupsAreNotEmpty(related, rows, src.key);
    AssignHasMany(parents, related);
    if Named(src) && Answers(src) {
      EachChild(src, was, related);
    }
  }

  lemma EachChild<R(!new)>(src: Source<R>, ps: seq<Parent<R>>, related: map<Key, seq<R>>)
    requires Named(src) && Answers(src) && GroupsOf(related, Answer(src, Distinct(PKs(ps))), src.key)
    ensures forall i :: 0 <= i < |ps| ==> RowsFor(related, ps[i].pk) == Answer(src, [ps[i].pk])
  {
    forall i | 0 <= i < |ps|
      ensures RowsFor(related, ps[i].pk) == Answer(src, [ps[i].pk])
    {
      KeyIsAmong(PKs(ps), i);
      BatchServes(src, PKs(ps), ps[i].pk);
      assert GroupAt(related, Matching(Answer(src, Distinct(PKs(ps))), src.key, [ps[i].pk]), ps[i].pk);
    }
  }

  lemma EachOwner<R(!new)>(src: Source<R>, ps: seq<Parent<R>>, related: map<Key, R>)
    requires Named(src) && Answers(src) && LastOf(related, Answer(src, Distinct(FKs(ps))), src.key)
    ensures forall i :: 0 <= i < |ps| ==>
              WithOwner(ps[i], RowFor(related, ps[i].fk)) == WithOwner(ps[i], Answer(src, [ps[i].fk]))
  {
    forall i | 0 <= i < |ps|
      ensures WithOwner(ps[i], RowFor(related, ps[i].fk)) == WithOwner(ps[i], Answer(src, [ps[i].fk]))
    {
      KeyIsAmong(FKs(ps), i);
      BatchServes(src, FKs(ps), ps[i].fk);
      assert LastAt(related, Matching(Answer(src, Distinct(FKs(ps))), src.key, [ps[i].fk]), ps[i].fk);
    }
  }

  lemma KeyIsAmong(ks: seq<Key>, i: nat)
    requires i < |ks|
    ensures ks[i] in ks
  {
  }

  /** The batch holds, for every collected key, what its own query answers. */
  lemma BatchServes<R(!new)>(src: Source<R>, ks: seq<Key>, k: Key)
    requires Named(src) && Answers(src) && k in ks
    ensures Distinct(ks) != []
    ensures Matching(Answer(src, Distinct(ks)), src.key, [k]) == Answer(src, [k])
  {
    DistinctKeepsAll(ks);
    AnswerIsMatching(src, Distinct(ks));
    AnswerIsMatching(src, [k]);
    GroupOfBatch(src.rows, src.key, Distinct(ks), k);
  }

  // ----------------------------------------------------------- belongs_to

  function WithOwner<R>(p: Parent<R>, found: seq<R>): Parent<R>
  {
    if found == [] then p else p.(owner := Some(found[|found| - 1]))
  }

  function RowFor<R>(related: map<Key, R>, k: Key): seq<R>
  {
    if k in related then [related[k]] else []
  }

  method AssignBelongsTo<R(!new)>(parents: array<Parent<R>>, related: map<Key, R>)
    modifies parents
    ensures forall i :: 0 <= i < parents.Length ==>
              parents[i] == WithOwner(old(parents[i]), RowFor(related, old(parents[i]).fk))
  {
    for i := 0 to parents.Length
      invariant forall j :: i <= j < parents.Length ==> parents[j] == old(parents[j])
      invariant forall j :: 0 <= j < i ==>
                  parents[j] == WithOwner(old(parents[j]), RowFor(related, old(parents[j]).fk))
    {
      var fk := parents[i].fk;
      if fk in related {
        parents[i] := parents[i].(owner := Some(related[fk]));
      }
    }
  }

  method LoadBelongsTo<R(!new)>(src: Source<R>, parents: array<Parent<R>>)
    modifies parents
    ensures Named(src) && Answers(src) ==>
              forall i :: 0 <= i < parents.Length ==>
                parents[i] == WithOwner(old(parents[i]), Answer(src, [old(parents[i]).fk]))
  {
    ghost var was := parents[..];
    var keys := Collect(FKs(parents[..]));
    if |keys| == 0 {
      NoKeysNoParents(FKs(was));
      return;
    }
    var rows := Fetch(src, keys);
    var related := BuildPKMap(rows, src.key);
    AssignBelongsTo(parents, related);
    if Named(src) && Answers(src) {
      EachOwner(src, was, related);
    }
  }

  /** No two rows share a key. */
  ghost predicate UniqueKeys<R>(rows: seq<R>, key: R -> Key)
  {
    forall i, j :: 0 <= i < j < |rows| ==> key(rows[i]) != key(rows[j])
  }

  /** With a primary key, a lookup finds the one row with that key, if any. */
  lemma {:induction false} UniqueRow<R>(rows: seq<R>, key: R -> Key, i: nat)
    requires i < |rows| && UniqueKeys(rows, key)
    ensures Matching(rows, key, [key(rows[i])]) == [rows[i]]
  {
    var n := |rows| - 1;
    var front := rows[..n];
    if i < n {
      assert front[i] == rows[i];
      UniqueRow(front, key, i);
    } else {
      NoneLeft(front, key, key(rows[n]));
    }
  }

  lemma {:induction false} NoneLeft<R>(rows: seq<R>, key: R -> Key, k: Key)
    requires forall i :: 0 <= i < |rows| ==> key(rows[i]) != k
    ensures Matching(rows, key, [k]) == []
  {
    if rows != [] {
      NoneLeft(rows[..|rows| - 1], key, k);
    }
  }

  /** A freshly scanned parent ends with exactly the rows that point to it. */
  lemma FreshChildren<R(!new)>(src: Source<R>, p: Parent<R>)
    requires Named(src) && Answers(src) && p.children == []
    ensures WithChildren(p, Answer(src, [p.pk])).children == Matching(src.rows, src.key, [p.pk])
  {
    AnswerIsMatching(src, [p.pk]);
  }

  /** A freshly scanned parent ends with the one row that has its foreign key, or with none. */
  lemma FreshOwner<R(!new)>(src: Source<R>, p: Parent<R>)
    requires Named(src) && Answers(src) && p.owner == None && UniqueKeys(src.rows, src.key)
    ensures forall i :: 0 <= i < |src.rows| && src.key(src.rows[i]) == p.fk ==>
              WithOwner(p, Answer(src, [p.fk])).owner == Some(src.rows[i])
    ensures (forall i :: 0 <= i < |src.rows| ==> src.key(src.rows[i]) != p.fk) ==>
              WithOwner(p, Answer(src, [p.fk])).owner == None
  {
    AnswerIsMatching(src, [p.fk]);
    forall i | 0 <= i < |src.rows| && src.key(src.rows[i]) == p.fk
      ensures WithOwner(p, Answer(src, [p.fk])).owner == Some(src.rows[i])
    {
      UniqueRow(src.rows, src.key, i);
    }
    if forall i :: 0 <= i < |src.rows| ==> src.key(src.rows[i]) != p.fk {
      NoneLeft(src.rows, src.key, p.fk);
    }
  }
}
