/**
 When Migrate and Rollback succeed, and where they end: told by the schemas that the
 statements of the migrations themselves lead through.
 */
module MigrationOutcomes {
  import opened Migrations
  import opened Options
  import opened Seqs

  /** The Up of each migration leads from one schema to the next, starting at s. */
  ghost predicate Climbs<S(!new)>(todo: seq<Migration<S>>, s: S, schemas: seq<S>)
  {
    && |schemas| == |todo| + 1 && schemas[0] == s
    && forall i :: 0 <= i < |todo| ==> todo[i].up(schemas[i]) == Some(schemas[i + 1])
  }

  lemma ClimbsFirst<S(!new)>(todo: seq<Migration<S>>, s: S, schemas: seq<S>)
    requires todo != [] && Climbs(todo, s, schemas)
    ensures todo[0].up(s) == Some(schemas[1]) && Climbs(todo[1..], schemas[1], schemas[1..])
  {
    var rest, later := todo[1..], schemas[1..];
    forall i | 0 <= i < |rest|
      ensures rest[i].up(later[i]) == Some(later[i + 1])
    {
      assert todo[i + 1].up(schemas[i + 1]) == Some(schemas[i + 1 + 1]);
    }
  }

  lemma ClimbsMore<S(!new)>(todo: seq<Migration<S>>, s: S, later: seq<S>)
    requires todo != [] && todo[0].up(s).Some? && Climbs(todo[1..], todo[0].up(s).value, later)
    ensures Climbs(todo, s, [s] + later)
  {
    var schemas := [s] + later;
    forall i | 0 <= i < |todo|
      ensures todo[i].up(schemas[i]) == Some(schemas[i + 1])
    {
      assert schemas[i + 1] == later[i];
      if i > 0 {
        assert todo[1..][i - 1].up(later[i - 1]) == Some(later[i - 1 + 1]);
      }
    }
  }

  /** A batch that goes through leads through such schemas. */
  lemma {:induction false} SchemasOfBatch<S(!new)>(todo: seq<Migration<S>>, batch: nat, db: Db<S>)
    returns (schemas: seq<S>)
    requires UpAll(todo, batch, db).Some?
    ensures Climbs(todo, db.schema, schemas)
    decreases |todo|
  {
    if todo == [] {
      schemas := [db.schema];
    } else {
      var s := todo[0].up(db.schema).value;
      var later := SchemasOfBatch(todo[1..], batch, Db(s, db.ledger + [Row(todo[0].name, batch)]));
      ClimbsMore(todo, db.schema, later);
      schemas := [db.schema] + later;
    }
  }

  /** And where there are such schemas the batch goes through, to the last of them. */
  lemma {:induction false} BatchOfSchemas<S(!new)>(todo: seq<Migration<S>>, batch: nat, db: Db<S>, schemas: seq<S>)
    requires Climbs(todo, db.schema, schemas)
    ensures UpAll(todo, batch, db) == Some(Db(schemas[|todo|], db.ledger + Rows(todo, batch)))
    decreases |todo|
  {
    if todo == [] {
      NoRows(db.ledger, todo, batch);
    } else {
      ClimbsFirst(todo, db.schema, schemas);
      BatchOfSchemas(todo[1..], batch, Db(schemas[1], db.ledger + [Row(todo[0].name, batch)]), schemas[1..]);
      FirstRow(db.ledger, todo, batch);
    }
  }

  ghost predicate CanClimb<S(!new)>(todo: seq<Migration<S>>, s: S)
  {
    exists schemas :: Climbs(todo, s, schemas)
  }

  /** It ends after the last Up, with one row for each, or changes nothing. */
  ghost predicate BatchEndsRight<S(!new)>(db: Db<S>, todo: seq<Migration<S>>, batch: nat, result: (Db<S>, bool))
  {
    && (result.1 <==> CanClimb(todo, db.schema))
    && (forall schemas :: Climbs(todo, db.schema, schemas) ==>
         result.0 == Db(schemas[|todo|], db.ledger + Rows(todo, batch)))
    && (!result.1 ==> result.0 == db)
  }

  lemma BatchEnds<S(!new)>(todo: seq<Migration<S>>, batch: nat, db: Db<S>)
    ensures BatchEndsRight(db, todo, batch, Committed(db, UpAll(todo, batch, db)))
  {
    var tx := UpAll(todo, batch, db);
    if tx.Some? {
      var schemas := SchemasOfBatch(todo, batch, db);
      assert CanClimb(todo, db.schema);
    }
    forall schemas | Climbs(todo, db.schema, schemas)
      ensures tx == Some(Db(schemas[|todo|], db.ledger + Rows(todo, batch)))
    {
      BatchOfSchemas(todo, batch, db, schemas);
    }
  }

  /**
   Migrate succeeds exactly when the Ups of the pending migrations lead, one after the
   other, from the stored schema to some last one; it then ends there, with one row for
   each of them, and otherwise changes nothing.
   */
  lemma MigrateExactly<S(!new)>(ms: seq<Migration<S>>, db: Db<S>)
    ensures BatchEndsRight(db, Pending(Sorted(ms), db.ledger), LastBatch(db.ledger) + 1, Migrate(ms, db))
  {
    BatchEnds(Pending(Sorted(ms), db.ledger), LastBatch(db.ledger) + 1, db);
  }

  // ------------------------------------------------------------ Rollback

  /** The Down of a recorded migration, if it is registered and goes through. */
  function Undone<S>(ms: seq<Migration<S>>, name: string, s: S): Option<S>
  {
    match Find(ms, name)
    case None => None
    case Some(m) => m.down(s)
  }

  /** The Downs of the rows from k on, the last row first, lead from one schema to the next. */
  ghost predicate Descends<S(!new)>(ms: seq<Migration<S>>, ledger: seq<Row>, k: nat, s: S, schemas: seq<S>)
    requires k <= |ledger|
  {
    && |schemas| == |ledger| - k + 1 && schemas[0] == s
    && forall i :: 0 <= i < |ledger| - k ==>
         Undone(ms, ledger[|ledger| - 1 - i].name, schemas[i]) == Some(schemas[i + 1])
  }

  lemma DescendsFirst<S(!new)>(ms: seq<Migration<S>>, ledger: seq<Row>, k: nat, s: S, schemas: seq<S>)
    requires k < |ledger| && Descends(ms, ledger, k, s, schemas)
    ensures Undone(ms, ledger[|ledger| - 1].name, s) == Some(schemas[1])
    ensures Descends(ms, ledger[..|ledger| - 1], k, schemas[1], schemas[1..])
  {
    var n, front, later := |ledger|, ledger[..|ledger| - 1], schemas[1..];
    assert Undone(ms, ledger[n - 1 - 0].name, schemas[0]) == Some(schemas[0 + 1]);
    forall i | 0 <= i < |front| - k
      ensures Undone(ms, front[|front| - 1 - i].name, later[i]) == Some(later[i + 1])
    {
      assert Undone(ms, ledger[n - 1 - (i + 1)].name, schemas[i + 1]) == Some(schemas[i + 1 + 1]);
    }
  }

  lemma DescendsMore<S(!new)>(ms: seq<Migration<S>>, ledger: seq<Row>, k: nat, s: S, later: seq<S>)
    requires k < |ledger| && Undone(ms, ledger[|ledger| - 1].name, s).Some?
    requires Descends(ms, ledger[..|ledger| - 1], k, Undone(ms, ledger[|ledger| - 1].name, s).value, later)
    ensures Descends(ms, ledger, k, s, [s] + later)
  {
    var n, front, schemas := |ledger|, ledger[..|ledger| - 1], [s] + later;
    forall i | 0 <= i < n - k
      ensures Undone(ms, ledger[n - 1 - i].name, schemas[i]) == Some(schemas[i + 1])
    {
      assert schemas[i + 1] == later[i];
      if i > 0 {
        assert Undone(ms, front[|front| - 1 - (i - 1)].name, later[i - 1]) == Some(later[i - 1 + 1]);
      }
    }
  }

  ghost predicate CanDescend<S(!new)>(ms: seq<Migration<S>>, db: Db<S>, k: nat)
    requires k <= |db.ledger|
  {
    exists schemas :: Descends(ms, db.ledger, k, db.schema, schemas)
  }

  /** It ends after the last Down, or stops in front of the first one that fails. */
  ghost predicate EndsRight<S(!new)>(ms: seq<Migration<S>>, db: Db<S>, k: nat, result: (Db<S>, bool))
    requires k <= |db.ledger|
  {
    && (result.1 <==> CanDescend(ms, db, k))
    && (forall schemas :: Descends(ms, db.ledger, k, db.schema, schemas) ==>
         result.0 == Db(schemas[|db.ledger| - k], db.ledger[..k]))
    && (!result.1 ==> StopsAtFailure(ms, result.0))
  }

  ghost predicate StopsAtFailure<S(!new)>(ms: seq<Migration<S>>, db: Db<S>)
  {
    db.ledger != [] && Undone(ms, db.ledger[|db.ledger| - 1].name, db.schema) == None
  }

  lemma NothingToUndo<S(!new)>(ms: seq<Migration<S>>, db: Db<S>)
    ensures EndsRight(ms, db, |db.ledger|, (db, true))
  {
    assert Descends(ms, db.ledger, |db.ledger|, db.schema, [db.schema]);
    Whole(db.ledger);
  }

  lemma FirstDownFails<S(!new)>(ms: seq<Migration<S>>, db: Db<S>, k: nat)
    requires k < |db.ledger| && Undone(ms, db.ledger[|db.ledger| - 1].name, db.schema) == None
    ensures EndsRight(ms, db, k, (db, false))
  {
    forall schemas
      ensures !Descends(ms, db.ledger, k, db.schema, schemas)
    {
      if Descends(ms, db.ledger, k, db.schema, schemas) {
        DescendsFirst(ms, db.ledger, k, db.schema, schemas);
      }
    }
  }

  lemma FirstDownWorks<S(!new)>(ms: seq<Migration<S>>, db: Db<S>, k: nat, s: S, result: (Db<S>, bool))
    requires k < |db.ledger| && Undone(ms, db.ledger[|db.ledger| - 1].name, db.schema) == Some(s)
    requires EndsRight(ms, Db(s, db.ledger[..|db.ledger| - 1]), k, result)
    ensures EndsRight(ms, db, k, result)
  {
    var next := Db(s, db.ledger[..|db.ledger| - 1]);
    if CanDescend(ms, next, k) {
      var later :| Descends(ms, next.ledger, k, s, later);
      DescendsMore(ms, db.ledger, k, db.schema, later);
    }
    forall schemas | Descends(ms, db.ledger, k, db.schema, schemas)
      ensures CanDescend(ms, next, k) && result.0 == Db(schemas[|db.ledger| - k], db.ledger[..k])
    {
      DescendsFirst(ms, db.ledger, k, db.schema, schemas);
      assert next.ledger[..k] == db.ledger[..k];
    }
  }

  lemma {:induction false} DownAllEnds<S(!new)>(ms: seq<Migration<S>>, base: S, db: Db<S>, k: nat)
    requires Sound(ms) && Consistent(ms, base, db) && k <= |db.ledger|
    ensures EndsRight(ms, db, k, DownAll(ms, Reversed(Names(db.ledger[k..])), db))
    decreases |db.ledger|
  {
    if k == |db.ledger| {
      assert Names(db.ledger[k..]) == [];
      NothingToUndo(ms, db);
    } else {
      var n := |db.ledger| - 1;
      DownUndoesLast(ms, base, db);
      DownAllStep(ms, db, k);
      var undone := Undone(ms, db.ledger[n].name, db.schema);
      if undone == None {
        FirstDownFails(ms, db, k);
      } else {
        var next := Db(undone.value, db.ledger[..n]);
        DownAllEnds(ms, base, next, k);
        FirstDownWorks(ms, db, k, undone.value, DownAll(ms, Reversed(Names(next.ledger[k..])), next));
      }
    }
  }

  /** The rows from k on are those of the newest batch. */
  ghost predicate NewestBatch(ledger: seq<Row>, k: nat)
  {
    && k <= |ledger| && (ledger != [] ==> k < |ledger|)
    && (forall i :: 0 <= i < k ==> ledger[i].batch < ledger[|ledger| - 1].batch)
    && (forall i :: k <= i < |ledger| ==> ledger[i].batch == ledger[|ledger| - 1].batch)
  }

  /**
   Rollback succeeds exactly when the Downs of the newest batch lead, last row first,
   from the stored schema to some last one; it then ends there, without these rows. If
   not, it stops in front of the first Down that fails.
   */
  lemma RollbackExactly<S(!new)>(ms: seq<Migration<S>>, base: S, db: Db<S>) returns (k: nat)
    requires Sound(ms) && Consistent(ms, base, db)
    ensures NewestBatch(db.ledger, k) && EndsRight(ms, db, k, Rollback(ms, db))
  {
    k := LastBatchSplits(db.ledger);
    if db.ledger == [] {
      NothingToUndo(ms, db);
    } else {
      var names := Names(db.ledger[k..]);
      BatchNamesOfSuffix(db.ledger, LastBatch(db.ledger), k);
      SortedNamesOfAscending(names);
      DownAllEnds(ms, base, db, k);
    }
  }
}
