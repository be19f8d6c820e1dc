/**
 The migration runner over a database with transactional DDL: a schema, and a
 ledger of what ran in which batch. A migration is what its Up and Down do to a
 schema; None means that one of its statements fails.
 */
module Migrations {
  import opened Options
  import opened Seqs
  import opened Text

  datatype Migration<!S> = Migration(name: string, up: S -> Option<S>, down: S -> Option<S>)

  datatype Row = Row(name: string, batch: nat)

  datatype Db<S> = Db(schema: S, ledger: seq<Row>)

  // ------------------------------------------------------------- sorting

  /** Insertion sort by name, the order in which migrations run and batches are read back. */
  function Insert<T>(name: T -> string, x: T, xs: seq<T>): seq<T>
  {
    if xs == [] || !Less(name(xs[0]), name(x)) then [x] + xs else [xs[0]] + Insert(name, x, xs[1..])
  }

  function SortBy<T>(name: T -> string, xs: seq<T>): seq<T>
  {
    if xs == [] then [] else Insert(name, xs[0], SortBy(name, xs[1..]))
  }

  function NameOf<S>(m: Migration<S>): string
  {
    m.name
  }

  function Itself(name: string): string
  {
    name
  }

  /** sortMigrations: by name. */
  function Sorted<S>(ms: seq<Migration<S>>): seq<Migration<S>>
  {
    SortBy(NameOf, ms)
  }

  function SortedNames(ns: seq<string>): seq<string>
  {
    SortBy(Itself, ns)
  }

  function Reversed(ns: seq<string>): (r: seq<string>)
    ensures |r| == |ns|
  {
    if ns == [] then [] else Reversed(ns[1..]) + [ns[0]]
  }

  // ---------------------------------------------------------- operations

  predicate Ran(ledger: seq<Row>, name: string)
  {
    exists i :: 0 <= i < |ledger| && ledger[i].name == name
  }

  function LastBatch(ledger: seq<Row>): (b: nat)
    ensures forall i :: 0 <= i < |ledger| ==> ledger[i].batch <= b
  {
    if ledger == [] then 0
    else
      var b := LastBatch(ledger[..|ledger| - 1]);
      if ledger[|ledger| - 1].batch > b then ledger[|ledger| - 1].batch else b
  }

  /** The migrations of the list that have not run, in list order. */
  function Pending<S>(ms: seq<Migration<S>>, ledger: seq<Row>): seq<Migration<S>>
  {
    if ms == [] then []
    else (if Ran(ledger, ms[0].name) then [] else [ms[0]]) + Pending(ms[1..], ledger)
  }

  /** Run each Up and record it, inside the batch transaction. */
  function UpAll<S>(todo: seq<Migration<S>>, batch: nat, db: Db<S>): Option<Db<S>>
    decreases |todo|
  {
    if todo == [] then Some(db)
    else
      match todo[0].up(db.schema)
      case None => None
      case Some(schema) => UpAll(todo[1..], batch, Db(schema, db.ledger + [Row(todo[0].name, batch)]))
  }

  function Migrate<S>(ms: seq<Migration<S>>, db: Db<S>): (Db<S>, bool)
  {
    Committed(db, UpAll(Pending(Sorted(ms), db.ledger), LastBatch(db.ledger) + 1, db))
  }

  /** The transaction's outcome, or the database as it was. */
  function Committed<S>(db: Db<S>, tx: Option<Db<S>>): (Db<S>, bool)
  {
    match tx
    case None => (db, false)
    case Some(db') => (db', true)
  }

  function BatchNames(ledger: seq<Row>, batch: nat): seq<string>
  {
    if ledger == [] then []
    else (if ledger[0].batch == batch then [ledger[0].name] else []) + BatchNames(ledger[1..], batch)
  }

  function Find<S>(ms: seq<Migration<S>>, name: string): Option<Migration<S>>
  {
    if ms == [] then None else if ms[0].name == name then Some(ms[0]) else Find(ms[1..], name)
  }

  /** DELETE ... WHERE migration = name. */
  function Forget(ledger: seq<Row>, name: string): seq<Row>
  {
    if ledger == [] then []
    else (if ledger[0].name == name then [] else [ledger[0]]) + Forget(ledger[1..], name)
  }

  /** Run each Down in its own transaction; stop at the first failure, skip unknown names. */
  function DownAll<S>(ms: seq<Migration<S>>, names: seq<string>, db: Db<S>): (Db<S>, bool)
    decreases |names|
  {
    if names == [] then (db, true)
    else
      match Find(ms, names[0])
      case None => DownAll(ms, names[1..], db)
      case Some(m) =>
        match m.down(db.schema)
        case None => (db, false)
        case Some(schema) => DownAll(ms, names[1..], Db(schema, Forget(db.ledger, names[0])))
  }

  function Rollback<S>(ms: seq<Migration<S>>, db: Db<S>): (Db<S>, bool)
  {
    var batch := LastBatch(db.ledger);
    if batch == 0 then (db, true)
    else DownAll(ms, Reversed(SortedNames(BatchNames(db.ledger, batch))), db)
  }

  // ---------------------------------------------------------- invariants

  /** The schema that running the recorded Ups from scratch would give. */
  ghost function Replay<S>(ms: seq<Migration<S>>, ledger: seq<Row>, base: S): Option<S>
  {
    if ledger == [] then Some(base)
    else
      var front, row := Replay(ms, ledger[..|ledger| - 1], base), ledger[|ledger| - 1];
      if front.Some? && Find(ms, row.name).Some? then Find(ms, row.name).value.up(front.value) else None
  }

  /** Batches are contiguous, rise along the ledger, and run in ascending name order; no name twice. */
  ghost predicate LedgerOk(ledger: seq<Row>)
  {
    && (forall i :: 0 <= i < |ledger| ==> ledger[i].batch > 0)
    && (forall i, j :: 0 <= i < j < |ledger| ==>
         && ledger[i].name != ledger[j].name
         && ledger[i].batch <= ledger[j].batch
         && (ledger[i].batch == ledger[j].batch ==> Less(ledger[i].name, ledger[j].name)))
  }

  ghost predicate Distinct<S>(ms: seq<Migration<S>>)
  {
    forall i, j :: 0 <= i < j < |ms| ==> ms[i].name != ms[j].name
  }

  /** A Down that succeeds undoes its Up. */
  ghost predicate Undoes<S(!new)>(m: Migration<S>)
  {
    forall s :: m.up(s).Some? && m.down(m.up(s).value).Some? ==> m.down(m.up(s).value) == Some(s)
  }

  ghost predicate Sound<S(!new)>(ms: seq<Migration<S>>)
  {
    Distinct(ms) && forall i :: 0 <= i < |ms| ==> Undoes(ms[i])
  }

  ghost predicate Consistent<S>(ms: seq<Migration<S>>, base: S, db: Db<S>)
  {
    LedgerOk(db.ledger) && Replay(ms, db.ledger, base) == Some(db.schema)
  }

  // ------------------------------------------------------------- Migrate

  ghost predicate Ascending<S>(ms: seq<Migration<S>>)
  {
    forall i, j :: 0 <= i < j < |ms| ==> Less(ms[i].name, ms[j].name)
  }

  lemma {:induction false} InsertKeeps<S>(m: Migration<S>, ms: seq<Migration<S>>)
    ensures forall x :: x in Insert(NameOf, m, ms) <==> x == m || x in ms
  {
    if ms != [] && Less(ms[0].name, m.name) {
      InsertKeeps(m, ms[1..]);
    }
  }

  lemma {:induction false} InsertAbove<S>(low: string, m: Migration<S>, ms: seq<Migration<S>>)
    requires Less(low, m.name) && forall i :: 0 <= i < |ms| ==> Less(low, ms[i].name)
    ensures forall i :: 0 <= i < |Insert(NameOf, m, ms)| ==> Less(low, Insert(NameOf, m, ms)[i].name)
  {
    if ms != [] && Less(ms[0].name, m.name) {
      InsertAbove(low, m, ms[1..]);
    }
  }

  lemma {:induction false} InsertAscends<S>(m: Migration<S>, ms: seq<Migration<S>>)
    requires Ascending(ms) && forall i :: 0 <= i < |ms| ==> ms[i].name != m.name
    ensures Ascending(Insert(NameOf, m, ms))
  {
    if ms == [] {
    } else if Less(ms[0].name, m.name) {
      InsertAscends(m, ms[1..]);
      InsertAbove(ms[0].name, m, ms[1..]);
    } else {
      LessTotal(ms[0].name, m.name);
      forall i | 0 <= i < |ms|
        ensures Less(m.name, ms[i].name)
      {
        if i > 0 {
          LessTransitive(m.name, ms[0].name, ms[i].name);
        }
      }
    }
  }

  lemma {:induction false} SortedKeeps<S>(ms: seq<Migration<S>>)
    ensures forall x :: x in Sorted(ms) <==> x in ms
  {
    if ms != [] {
      SortedKeeps(ms[1..]);
      InsertKeeps(ms[0], Sorted(ms[1..]));
    }
  }

  lemma {:induction false} InsertAvoids<S>(name: string, m: Migration<S>, ms: seq<Migration<S>>)
    requires m.name != name && forall i :: 0 <= i < |ms| ==> ms[i].name != name
    ensures forall i :: 0 <= i < |Insert(NameOf, m, ms)| ==> Insert(NameOf, m, ms)[i].name != name
  {
    if ms != [] && Less(ms[0].name, m.name) {
      InsertAvoids(name, m, ms[1..]);
    }
  }

  lemma {:induction false} SortedAvoids<S>(name: string, ms: seq<Migration<S>>)
    requires forall i :: 0 <= i < |ms| ==> ms[i].name != name
    ensures forall i :: 0 <= i < |Sorted(ms)| ==> Sorted(ms)[i].name != name
  {
    if ms != [] {
      SortedAvoids(name, ms[1..]);
      InsertAvoids(name, ms[0], Sorted(ms[1..]));
    }
  }

  lemma {:induction false} SortedAscends<S>(ms: seq<Migration<S>>)
    requires Distinct(ms)
    ensures Ascending(Sorted(ms))
  {
    if ms != [] {
      SortedAscends(ms[1..]);
      SortedAvoids(ms[0].name, ms[1..]);
      InsertAscends(ms[0], Sorted(ms[1..]));
    }
  }

  lemma {:induction false} PendingKeeps<S>(ms: seq<Migration<S>>, ledger: seq<Row>)
    ensures forall x :: x in Pending(ms, ledger) <==> x in ms && !Ran(ledger, x.name)
    ensures Ascending(ms) ==> Ascending(Pending(ms, ledger))
  {
    if ms != [] {
      PendingKeeps(ms[1..], ledger);
      var rest := Pending(ms[1..], ledger);
      if Ascending(ms) {
        forall i | 0 <= i < |rest|
          ensures Less(ms[0].name, rest[i].name)
        {
          assert rest[i] in ms[1..];
        }
      }
    }
  }

  lemma PendingStep<S>(pending: seq<Migration<S>>, ms: seq<Migration<S>>, ledger: seq<Row>, i: nat)
    requires i < |ms|
    ensures pending + Pending(ms[i..], ledger) ==
            (if Ran(ledger, ms[i].name) then pending else pending + [ms[i]]) + Pending(ms[i + 1..], ledger)
  {
    DropOne(ms, i);
    if !Ran(ledger, ms[i].name) {
      Assoc(pending, [ms[i]], Pending(ms[i + 1..], ledger));
    }
  }

  lemma {:induction false} FindsRegistered<S>(ms: seq<Migration<S>>, m: Migration<S>)
    requires Distinct(ms) && m in ms
    ensures Find(ms, m.name) == Some(m)
  {
    if ms[0].name != m.name {
      FindsRegistered(ms[1..], m);
    }
  }

  /** Rows may be added for these migrations, in this order, under this batch. */
  ghost predicate Addable<S>(ledger: seq<Row>, todo: seq<Migration<S>>, batch: nat)
  {
    forall i, k :: 0 <= i < |ledger| && 0 <= k < |todo| ==>
      && ledger[i].name != todo[k].name
      && ledger[i].batch <= batch
      && (ledger[i].batch == batch ==> Less(ledger[i].name, todo[k].name))
  }

  ghost function Rows<S>(todo: seq<Migration<S>>, batch: nat): (rows: seq<Row>)
    ensures |rows| == |todo|
  {
    seq(|todo|, i requires 0 <= i < |todo| => Row(todo[i].name, batch))
  }

  /** Recording the first one keeps the ledger in order and leaves room for the others. */
  lemma AddRow<S>(ledger: seq<Row>, todo: seq<Migration<S>>, batch: nat)
    requires LedgerOk(ledger) && todo != [] && Ascending(todo) && Addable(ledger, todo, batch) && batch > 0
    ensures LedgerOk(ledger + [Row(todo[0].name, batch)])
    ensures Addable(ledger + [Row(todo[0].name, batch)], todo[1..], batch)
  {
    var ledger', rest := ledger + [Row(todo[0].name, batch)], todo[1..];
    forall i, k | 0 <= i < |ledger'| && 0 <= k < |rest|
      ensures ledger'[i].name != rest[k].name && ledger'[i].batch <= batch
      ensures ledger'[i].batch == batch ==> Less(ledger'[i].name, rest[k].name)
    {
      assert rest[k] == todo[k + 1];
      LessIrreflexive(todo[0].name);
    }
  }

  lemma {:induction false} UpAllRecords<S>(
    ms: seq<Migration<S>>, base: S, todo: seq<Migration<S>>, batch: nat, db: Db<S>)
    requires Distinct(ms) && Consistent(ms, base, db) && batch > 0
    requires Ascending(todo) && Addable(db.ledger, todo, batch) && forall m :: m in todo ==> m in ms
    ensures UpAll(todo, batch, db).Some? ==>
      var db' := UpAll(todo, batch, db).value;
      Consistent(ms, base, db') && db'.ledger == db.ledger + Rows(todo, batch)
    decreases |todo|
  {
    if todo == [] {
      NoRows(db.ledger, todo, batch);
    } else if todo[0].up(db.schema).Some? {
      var next := Db(todo[0].up(db.schema).value, db.ledger + [Row(todo[0].name, batch)]);
      UpRecords(ms, base, todo, batch, db);
      UpAllRecords(ms, base, todo[1..], batch, next);
      FirstRow(db.ledger, todo, batch);
    }
  }

  /** One Up, recorded, keeps the schema the fold of the ledger. */
  lemma UpRecords<S>(ms: seq<Migration<S>>, base: S, todo: seq<Migration<S>>, batch: nat, db: Db<S>)
    requires Distinct(ms) && Consistent(ms, base, db) && batch > 0
    requires todo != [] && Ascending(todo) && Addable(db.ledger, todo, batch) && todo[0] in ms
    requires todo[0].up(db.schema).Some?
    ensures Consistent(ms, base, Db(todo[0].up(db.schema).value, db.ledger + [Row(todo[0].name, batch)]))
    ensures Addable(db.ledger + [Row(todo[0].name, batch)], todo[1..], batch)
  {
    ReplayGrows(ms, base, db, todo[0], batch);
    AddRow(db.ledger, todo, batch);
  }

  lemma ReplayGrows<S>(ms: seq<Migration<S>>, base: S, db: Db<S>, m: Migration<S>, batch: nat)
    requires Distinct(ms) && m in ms && Replay(ms, db.ledger, base) == Some(db.schema)
    ensures Replay(ms, db.ledger + [Row(m.name, batch)], base) == m.up(db.schema)
  {
    FindsRegistered(ms, m);
    FrontOfSnoc(db.ledger, Row(m.name, batch));
  }

  lemma NoRows<S>(ledger: seq<Row>, todo: seq<Migration<S>>, batch: nat)
    requires todo == []
    ensures ledger + Rows(todo, batch) == ledger
  {
  }

  lemma FirstRow<S>(ledger: seq<Row>, todo: seq<Migration<S>>, batch: nat)
    requires todo != []
    ensures ledger + Rows(todo, batch) == ledger + [Row(todo[0].name, batch)] + Rows(todo[1..], batch)
  {
  }

  lemma NewBatchAddable<S>(ledger: seq<Row>, todo: seq<Migration<S>>)
    requires forall m :: m in todo ==> !Ran(ledger, m.name)
    ensures Addable(ledger, todo, LastBatch(ledger) + 1)
  {
    forall i, k | 0 <= i < |ledger| && 0 <= k < |todo|
      ensures ledger[i].name != todo[k].name && ledger[i].batch <= LastBatch(ledger)
    {
      assert todo[k] in todo;
    }
  }

  /** What Migrate sets out to run: the registered migrations not in the ledger, by ascending name. */
  lemma PendingInOrder<S>(ms: seq<Migration<S>>, ledger: seq<Row>)
    requires Distinct(ms)
    ensures var todo := Pending(Sorted(ms), ledger);
      Ascending(todo) && forall m :: m in todo <==> m in ms && !Ran(ledger, m.name)
  {
    SortedAscends(ms);
    SortedKeeps(ms);
    PendingKeeps(Sorted(ms), ledger);
  }

  /** The schema is still the fold of the ledger, which has grown by the batch, or nothing has changed. */
  ghost predicate AddsBatch<S>(
    ms: seq<Migration<S>>, base: S, db: Db<S>, todo: seq<Migration<S>>, batch: nat, result: (Db<S>, bool))
  {
    && Consistent(ms, base, result.0)
    && (if result.1 then result.0.ledger == db.ledger + Rows(todo, batch) else result.0 == db)
  }

  /** Migrate is all or nothing, and what it adds is one ascending batch at the end of the ledger. */
  lemma MigrateAddsOneBatch<S>(ms: seq<Migration<S>>, base: S, db: Db<S>)
    requires Distinct(ms) && Consistent(ms, base, db)
    ensures AddsBatch(ms, base, db, Pending(Sorted(ms), db.ledger), LastBatch(db.ledger) + 1, Migrate(ms, db))
  {
    var todo := Pending(Sorted(ms), db.ledger);
    PendingIsAddable(ms, db.ledger);
    BatchIsAdded(ms, base, db, todo, LastBatch(db.ledger) + 1);
  }

  lemma BatchIsAdded<S>(ms: seq<Migration<S>>, base: S, db: Db<S>, todo: seq<Migration<S>>, batch: nat)
    requires Distinct(ms) && Consistent(ms, base, db) && batch > 0
    requires Ascending(todo) && Addable(db.ledger, todo, batch) && forall m :: m in todo ==> m in ms
    ensures AddsBatch(ms, base, db, todo, batch, Committed(db, UpAll(todo, batch, db)))
  {
    UpAllRecords(ms, base, todo, batch, db);
  }

  lemma PendingIsAddable<S>(ms: seq<Migration<S>>, ledger: seq<Row>)
    requires Distinct(ms)
    ensures var todo := Pending(Sorted(ms), ledger);
      Ascending(todo) && Addable(ledger, todo, LastBatch(ledger) + 1) && forall m :: m in todo ==> m in ms
  {
    PendingInOrder(ms, ledger);
    NewBatchAddable(ledger, Pending(Sorted(ms), ledger));
  }

  // ------------------------------------------------------------ Rollback

  ghost function Names(rows: seq<Row>): (ns: seq<string>)
    ensures |ns| == |rows|
  {
    seq(|rows|, i requires 0 <= i < |rows| => rows[i].name)
  }

  lemma {:induction false} SortedNamesOfAscending(ns: seq<string>)
    requires forall i, j :: 0 <= i < j < |ns| ==> Less(ns[i], ns[j])
    ensures SortedNames(ns) == ns
  {
    if ns != [] {
      SortedNamesOfAscending(ns[1..]);
      if |ns| > 1 {
        LessAsymmetric(ns[0], ns[1]);
      }
    }
  }

  lemma {:induction false} ReversedSnoc(ns: seq<string>, n: string)
    ensures Reversed(ns + [n]) == [n] + Reversed(ns)
  {
    if ns == [] {
      assert ns + [n] == [n];
    } else {
      assert (ns + [n])[1..] == ns[1..] + [n];
      ReversedSnoc(ns[1..], n);
    }
  }

  /** The last batch is a suffix of the ledger. */
  ghost predicate SplitsAt(ledger: seq<Row>, batch: nat, k: nat)
  {
    && k <= |ledger|
    && (forall i :: 0 <= i < k ==> ledger[i].batch != batch)
    && (forall i :: k <= i < |ledger| ==> ledger[i].batch == batch)
  }

  lemma {:induction false} BatchNamesOfSuffix(ledger: seq<Row>, batch: nat, k: nat)
    requires SplitsAt(ledger, batch, k)
    ensures BatchNames(ledger, batch) == Names(ledger[k..])
    decreases |ledger|
  {
    if ledger != [] {
      if k > 0 {
        BatchNamesOfSuffix(ledger[1..], batch, k - 1);
        assert ledger[1..][k - 1..] == ledger[k..];
      } else {
        BatchNamesOfSuffix(ledger[1..], batch, 0);
        assert Names(ledger[0..]) == [ledger[0].name] + Names(ledger[1..][0..]);
      }
    }
  }

  lemma {:induction false} LastBatchSplits(ledger: seq<Row>) returns (k: nat)
    requires LedgerOk(ledger)
    ensures SplitsAt(ledger, LastBatch(ledger), k)
    ensures ledger != [] ==> LastBatch(ledger) == ledger[|ledger| - 1].batch && k < |ledger|
  {
    if ledger == [] {
      k := 0;
    } else {
      var front, last := ledger[..|ledger| - 1], ledger[|ledger| - 1];
      k := LastBatchSplits(front);
      if front == [] || front[|front| - 1].batch < last.batch {
        k := |front|;
      }
    }
  }

  lemma {:induction false} ForgetLast(ledger: seq<Row>)
    requires ledger != [] && LedgerOk(ledger)
    ensures Forget(ledger, ledger[|ledger| - 1].name) == ledger[..|ledger| - 1]
    decreases |ledger|
  {
    var last := ledger[|ledger| - 1];
    if |ledger| > 1 {
      ForgetLast(ledger[1..]);
      assert ledger[..|ledger| - 1] == [ledger[0]] + ledger[1..][..|ledger| - 2];
    }
  }

  /** One Down removes the last row and restores the schema before it. */
  lemma DownUndoesLast<S(!new)>(ms: seq<Migration<S>>, base: S, db: Db<S>)
    requires Sound(ms) && Consistent(ms, base, db) && db.ledger != []
    ensures var name := db.ledger[|db.ledger| - 1].name; var m := Find(ms, name);
      m.Some? && (m.value.down(db.schema).Some? ==>
        Consistent(ms, base, Db(m.value.down(db.schema).value, Forget(db.ledger, name))) &&
        Forget(db.ledger, name) == db.ledger[..|db.ledger| - 1])
  {
    var n := |db.ledger| - 1;
    var front, name := db.ledger[..n], db.ledger[n].name;
    ForgetLast(db.ledger);
    var before := Replay(ms, front, base);
    var m := Find(ms, name).value;
    assert m.up(before.value) == Some(db.schema);
    FoundIsRegistered(ms, name);
    assert Undoes(m);
  }

  lemma {:induction false} FoundIsRegistered<S>(ms: seq<Migration<S>>, name: string)
    requires Find(ms, name).Some?
    ensures exists i :: 0 <= i < |ms| && ms[i] == Find(ms, name).value
  {
    if ms[0].name != name {
      FoundIsRegistered(ms[1..], name);
      var i :| 0 <= i < |ms[1..]| && ms[1..][i] == Find(ms, name).value;
      assert ms[i + 1] == Find(ms, name).value;
    } else {
      assert ms[0] == Find(ms, name).value;
    }
  }

  /** The outcome of undoing: a prefix of the ledger, of length k exactly on success, with its schema. */
  ghost predicate LeftPrefix<S>(ms: seq<Migration<S>>, base: S, ledger: seq<Row>, k: nat, result: (Db<S>, bool))
  {
    && Consistent(ms, base, result.0)
    && k <= |result.0.ledger| <= |ledger| && result.0.ledger == ledger[..|result.0.ledger|]
    && (result.1 <==> |result.0.ledger| == k)
  }

  /** Undoing a suffix in reverse leaves a prefix: the whole rest on success, a longer one on failure. */
  lemma {:induction false} DownAllLeavesPrefix<S(!new)>(ms: seq<Migration<S>>, base: S, db: Db<S>, k: nat)
    requires Sound(ms) && Consistent(ms, base, db) && k <= |db.ledger|
    ensures LeftPrefix(ms, base, db.ledger, k, DownAll(ms, Reversed(Names(db.ledger[k..])), db))
    decreases |db.ledger|
  {
    if k == |db.ledger| {
      assert Names(db.ledger[k..]) == [];
      StaysPut(ms, base, db, k, true);
    } else {
      var undone := DownLast(ms, base, db, k);
      if undone.None? {
        StaysPut(ms, base, db, k, false);
      } else {
        var rest := db.ledger[..|db.ledger| - 1];
        var next := Db(undone.value, rest);
        DownAllLeavesPrefix(ms, base, next, k);
        PrefixOfFront(ms, base, db.ledger, k, DownAll(ms, Reversed(Names(rest[k..])), next));
      }
    }
  }

  lemma StaysPut<S>(ms: seq<Migration<S>>, base: S, db: Db<S>, k: nat, done: bool)
    requires Consistent(ms, base, db) && k <= |db.ledger| && (done <==> k == |db.ledger|)
    ensures LeftPrefix(ms, base, db.ledger, k, (db, done))
  {
    Whole(db.ledger);
  }

  /** The first Down of a rollback is that of the last row; it fails, or leaves the ledger without that row. */
  lemma DownLast<S(!new)>(ms: seq<Migration<S>>, base: S, db: Db<S>, k: nat) returns (undone: Option<S>)
    requires Sound(ms) && Consistent(ms, base, db) && k < |db.ledger|
    ensures var rest := db.ledger[..|db.ledger| - 1]; var names := Reversed(Names(db.ledger[k..]));
      && (undone.None? ==> DownAll(ms, names, db) == (db, false))
      && (undone.Some? ==>
           && Consistent(ms, base, Db(undone.value, rest))
           && DownAll(ms, names, db) == DownAll(ms, Reversed(Names(rest[k..])), Db(undone.value, rest)))
  {
    var name := db.ledger[|db.ledger| - 1].name;
    DownUndoesLast(ms, base, db);
    undone := Find(ms, name).value.down(db.schema);
    DownAllStep(ms, db, k);
  }

  lemma PrefixOfFront<S>(ms: seq<Migration<S>>, base: S, ledger: seq<Row>, k: nat, result: (Db<S>, bool))
    requires ledger != [] && LeftPrefix(ms, base, ledger[..|ledger| - 1], k, result)
    ensures LeftPrefix(ms, base, ledger, k, result)
  {
    var j := |result.0.ledger|;
    assert ledger[..|ledger| - 1][..j] == ledger[..j];
  }

  lemma DownAllStep<S>(ms: seq<Migration<S>>, db: Db<S>, k: nat)
    requires k < |db.ledger| && Find(ms, db.ledger[|db.ledger| - 1].name).Some?
    ensures var name := db.ledger[|db.ledger| - 1].name; var undone := Find(ms, name).value.down(db.schema);
      var rest := db.ledger[..|db.ledger| - 1]; var names := Reversed(Names(db.ledger[k..]));
      DownAll(ms, names, db) ==
      if undone.None? then (db, false)
      else DownAll(ms, Reversed(Names(rest[k..])), Db(undone.value, Forget(db.ledger, name)))
  {
    LastRowFirst(db.ledger, k);
  }

  /** In reverse order the last row comes first, then the rows before it. */
  lemma LastRowFirst(ledger: seq<Row>, k: nat)
    requires k < |ledger|
    ensures var order := Reversed(Names(ledger[k..]));
      order != [] && order[0] == ledger[|ledger| - 1].name && order[1..] == Reversed(Names(ledger[..|ledger| - 1][k..]))
  {
    var n := |ledger| - 1;
    var front, name := ledger[..n][k..], ledger[n].name;
    assert ledger[k..] == front + [ledger[n]];
    assert Names(ledger[k..]) == Names(front) + [name];
    ReversedSnoc(Names(front), name);
  }

  /** Rollback undoes exactly the last batch, in reverse; a failing Down leaves a prefix. */
  lemma RollbackUndoesSuffix<S(!new)>(ms: seq<Migration<S>>, base: S, db: Db<S>) returns (k: nat)
    requires Sound(ms) && Consistent(ms, base, db)
    ensures SplitsAt(db.ledger, LastBatch(db.ledger), k)
    ensures LeftPrefix(ms, base, db.ledger, k, Rollback(ms, db))
  {
    k := LastBatchSplits(db.ledger);
    if db.ledger != [] {
      var names := Names(db.ledger[k..]);
      BatchNamesOfSuffix(db.ledger, LastBatch(db.ledger), k);
      SortedNamesOfAscending(names);
      DownAllLeavesPrefix(ms, base, db, k);
    }
  }

  /** Migrate, when something is pending, and then Rollback: schema and ledger are as before. */
  lemma MigrateThenRollbackRestores<S(!new)>(ms: seq<Migration<S>>, base: S, db: Db<S>)
    requires Sound(ms) && Consistent(ms, base, db)
    requires Pending(Sorted(ms), db.ledger) != [] && Migrate(ms, db).1 && Rollback(ms, Migrate(ms, db).0).1
    ensures Rollback(ms, Migrate(ms, db).0).0 == db
  {
    MigrateAddsOneBatch(ms, base, db);
    BatchIsUndone(ms, base, db, Migrate(ms, db).0, Pending(Sorted(ms), db.ledger), LastBatch(db.ledger) + 1);
  }

  lemma BatchIsUndone<S(!new)>(
    ms: seq<Migration<S>>, base: S, db: Db<S>, db1: Db<S>, todo: seq<Migration<S>>, batch: nat)
    requires Sound(ms) && Consistent(ms, base, db) && Consistent(ms, base, db1)
    requires db1.ledger == db.ledger + Rows(todo, batch) && todo != [] && batch == LastBatch(db.ledger) + 1
    ensures Rollback(ms, db1).1 ==> Rollback(ms, db1).0 == db
  {
    RollbackOfBatch(ms, base, db, db1, Rows(todo, batch));
  }

  lemma RollbackOfBatch<S(!new)>(ms: seq<Migration<S>>, base: S, db: Db<S>, db1: Db<S>, rows: seq<Row>)
    requires Sound(ms) && Consistent(ms, base, db) && Consistent(ms, base, db1)
    requires db1.ledger == db.ledger + rows && rows != []
    requires forall i :: 0 <= i < |rows| ==> rows[i].batch == LastBatch(db.ledger) + 1
    ensures Rollback(ms, db1).1 ==> Rollback(ms, db1).0 == db
  {
    var k := RollbackUndoesSuffix(ms, base, db1);
    NewBatchIsLast(db.ledger, rows, k);
    if Rollback(ms, db1).1 {
      PrefixOfSum(db.ledger, rows);
    }
  }

  lemma PrefixOfSum(ledger: seq<Row>, rows: seq<Row>)
    ensures (ledger + rows)[..|ledger|] == ledger
  {
  }

  lemma NewBatchIsLast(ledger: seq<Row>, rows: seq<Row>, k: nat)
    requires LedgerOk(ledger + rows) && rows != []
    requires forall i :: 0 <= i < |rows| ==> rows[i].batch == LastBatch(ledger) + 1
    requires SplitsAt(ledger + rows, LastBatch(ledger + rows), k)
    ensures k == |ledger|
  {
    var whole, n := ledger + rows, |ledger|;
    var j := LastBatchSplits(whole);
    assert whole[|whole| - 1] == rows[|rows| - 1];
    assert forall i :: 0 <= i < n ==> whole[i] == ledger[i];
    assert whole[n] == rows[0] && whole[n].batch == LastBatch(whole);
    assert n > 0 ==> whole[n - 1].batch < LastBatch(whole);
  }

  // ------------------------------------------------------------ all runs

  datatype Op<!S> = Register(m: Migration<S>) | DoMigrate | DoRollback

  ghost predicate Allowed<S(!new)>(ms: seq<Migration<S>>, ops: seq<Op<S>>)
    decreases |ops|
  {
    ops == [] ||
    match ops[0]
    case Register(m) => Find(ms, m.name).None? && Undoes(m) && Allowed(ms + [m], ops[1..])
    case _ => Allowed(ms, ops[1..])
  }

  ghost function RunOps<S(!new)>(ms: seq<Migration<S>>, db: Db<S>, ops: seq<Op<S>>): (seq<Migration<S>>, Db<S>)
    decreases |ops|
  {
    if ops == [] then (ms, db)
    else
      match ops[0]
      case Register(m) => RunOps(ms + [m], db, ops[1..])
      case DoMigrate => RunOps(ms, Migrate(ms, db).0, ops[1..])
      case DoRollback => RunOps(ms, Rollback(ms, db).0, ops[1..])
  }

  lemma {:induction false} FindInLonger<S>(ms: seq<Migration<S>>, m: Migration<S>, name: string)
    ensures Find(ms, name).Some? ==> Find(ms + [m], name) == Find(ms, name)
    ensures Find(ms, name).None? ==> forall i :: 0 <= i < |ms| ==> ms[i].name != name
  {
    if ms != [] {
      assert (ms + [m])[1..] == ms[1..] + [m];
      FindInLonger(ms[1..], m, name);
    }
  }

  lemma {:induction false} ReplayInLonger<S>(ms: seq<Migration<S>>, m: Migration<S>, ledger: seq<Row>, base: S)
    requires Replay(ms, ledger, base).Some?
    ensures Replay(ms + [m], ledger, base) == Replay(ms, ledger, base)
  {
    if ledger != [] {
      ReplayInLonger(ms, m, ledger[..|ledger| - 1], base);
      FindInLonger(ms, m, ledger[|ledger| - 1].name);
    }
  }

  /** Over every history of registrations, migrations and rollbacks the schema is the fold of the ledger. */
  lemma {:induction false} SchemaFollowsLedger<S(!new)>(ms: seq<Migration<S>>, base: S, db: Db<S>, ops: seq<Op<S>>)
    requires Sound(ms) && Consistent(ms, base, db) && Allowed(ms, ops)
    ensures var (ms', db') := RunOps(ms, db, ops); Sound(ms') && Consistent(ms', base, db')
    decreases |ops|
  {
    if ops != [] {
      match ops[0]
      case Register(m) =>
        FindInLonger(ms, m, m.name);
        ReplayInLonger(ms, m, db.ledger, base);
        SchemaFollowsLedger(ms + [m], base, db, ops[1..]);
      case DoMigrate =>
        MigrateAddsOneBatch(ms, base, db);
        SchemaFollowsLedger(ms, base, Migrate(ms, db).0, ops[1..]);
      case DoRollback =>
        var k := RollbackUndoesSuffix(ms, base, db);
        SchemaFollowsLedger(ms, base, Rollback(ms, db).0, ops[1..]);
    }
  }

  // ---------------------------------------------------------- the runner

  class Migrator<S> {
    var migrations: seq<Migration<S>>
    var schema: S
    var ledger: seq<Row>

    constructor (base: S)
      ensures migrations == [] && Stored() == Db(base, [])
    {
      migrations, ledger := [], [];
      schema := base;
    }

    ghost function Stored(): Db<S>
      reads this
    {
      Db(schema, ledger)
    }

    method CollectPending() returns (pending: seq<Migration<S>>)
      ensures pending == Pending(migrations, ledger)
    {
      pending := [];
      var i := 0;
      while i < |migrations|
        invariant 0 <= i <= |migrations|
        invariant pending + Pending(migrations[i..], ledger) == Pending(migrations, ledger)
      {
        PendingStep(pending, migrations, ledger, i);
        if !Ran(ledger, migrations[i].name) {
          pending := pending + [migrations[i]];
        }
        i := i + 1;
      }
      Whole(migrations);
    }

    /** The batch transaction: what it would commit, or None if a statement fails. */
    method RunBatch(pending: seq<Migration<S>>, batch: nat) returns (tx: Option<Db<S>>)
      ensures tx == UpAll(pending, batch, Stored())
    {
      var db := Db(schema, ledger);
      ghost var goal := UpAll(pending, batch, db);
      var i := 0;
      while i < |pending|
        invariant 0 <= i <= |pending|
        invariant UpAll(pending[i..], batch, db) == goal
      {
        assert pending[i..][1..] == pending[i + 1..];
        var schema' := pending[i].up(db.schema);
        if schema'.None? {
          return None;
        }
        db := Db(schema'.value, db.ledger + [Row(pending[i].name, batch)]);
        i := i + 1;
      }
      assert pending[i..] == [];
      return Some(db);
    }

    /** Sort, collect what is pending, run it inside one transaction, commit at the end. */
    method RunMigrate() returns (ok: bool)
      modifies this
      ensures migrations == Sorted(old(migrations))
      ensures (Stored(), ok) == Migrate(old(migrations), old(Stored()))
    {
      migrations := Sorted(migrations);
      var pending := CollectPending();
      var tx := RunBatch(pending, LastBatch(ledger) + 1);
      ok := tx.Some?;
      if ok {
        schema, ledger := tx.value.schema, tx.value.ledger;
      }
    }

    /** Undo the last batch, newest name first, one transaction per migration. */
    method RunRollback() returns (ok: bool)
      modifies this
      ensures migrations == old(migrations)
      ensures (Stored(), ok) == Rollback(migrations, old(Stored()))
    {
      var batch := LastBatch(ledger);
      if batch == 0 {
        return true;
      }
      var names := Reversed(SortedNames(BatchNames(ledger, batch)));
      ghost var goal := DownAll(migrations, names, Stored());
      var i := 0;
      while i < |names|
        invariant 0 <= i <= |names|
        invariant migrations == old(migrations)
        invariant DownAll(migrations, names[i..], Stored()) == goal
      {
        assert names[i..][1..] == names[i + 1..];
        var found := Find(migrations, names[i]);
        if found.Some? {
          var schema' := found.value.down(schema);
          if schema'.None? {
            return false;
          }
          schema, ledger := schema'.value, Forget(ledger, names[i]);
        }
        i := i + 1;
      }
      assert names[i..] == [];
      return true;
    }
  }
}
