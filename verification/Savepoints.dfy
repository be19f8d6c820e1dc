/**
 Nested transactions compiled to savepoints. A Transaction call inside a
 transaction becomes SAVEPOINT / ROLLBACK TO / RELEASE on the one connection,
 under names that depend on the nesting depth only: siblings reuse them, and a
 failed block's savepoint is never released.
 */
module Savepoints {

  /** How a callback ends: it returns nil, returns an error, or panics. */
  datatype Outcome = Ok | Err | Panicked

  /**
   The behaviour of a callback, as the database sees it. It may write, branch on
   what it reads, and open nested transactions on its own handle, going on
   differently when the nested call returns nil, returns an error (which it may
   swallow or return), or panics (onPanic is Panic unless the callback recovers).
   */
  datatype Prog<!S> =
    | Done
    | Fail
    | Panic
    | Write(change: S -> S, next: Prog<S>)
    | If(test: S -> bool, yes: Prog<S>, no: Prog<S>)
    | Nest(body: Prog<S>, onOk: Prog<S>, onErr: Prog<S>, onPanic: Prog<S>)

  // ------------------------------------------------------ intended meaning

  /** All-or-nothing blocks: a nested block that does not end well leaves no trace. */
  ghost function AllOrNothing<S>(p: Prog<S>, db: S): (S, Outcome)
    decreases p
  {
    match p
    case Done => (db, Ok)
    case Fail => (db, Err)
    case Panic => (db, Panicked)
    case Write(change, next) => AllOrNothing(next, change(db))
    case If(test, yes, no) => if test(db) then AllOrNothing(yes, db) else AllOrNothing(no, db)
    case Nest(body, onOk, onErr, onPanic) =>
      var (db1, o) := AllOrNothing(body, db);
      match o
      case Ok => AllOrNothing(onOk, db1)
      case Err => AllOrNothing(onErr, db)
      case Panicked => AllOrNothing(onPanic, db)
  }

  /** The outermost block: what is committed, and what the caller gets back. */
  ghost function Intended<S>(p: Prog<S>, db: S): (S, Outcome)
  {
    var (db1, o) := AllOrNothing(p, db);
    if o == Ok then (db1, Ok) else (db, Err)
  }

  // ------------------------------------------------ savepoint-stack machine

  datatype Save<S> = Save(name: nat, db: S)

  /** A connection inside a transaction: current data, data at BEGIN, savepoints oldest first. */
  datatype Machine<S> = Machine(db: S, begun: S, saves: seq<Save<S>>)

  /** PostgreSQL shadows an equally named savepoint; MySQL and the standard replace it. */
  datatype Dialect = Shadowing | Replacing

  function Without<S>(saves: seq<Save<S>>, name: nat): seq<Save<S>>
  {
    if saves == [] then []
    else
      var front, last := Without(saves[..|saves| - 1], name), saves[|saves| - 1];
      if last.name == name then front else front + [last]
  }

  /** The position of the newest savepoint of that name, or -1. */
  function Newest<S>(saves: seq<Save<S>>, name: nat): (i: int)
    ensures -1 <= i < |saves|
    ensures i >= 0 ==> saves[i].name == name
    ensures forall j :: i < j < |saves| ==> saves[j].name != name
  {
    if saves == [] then -1
    else if saves[|saves| - 1].name == name then |saves| - 1
    else Newest(saves[..|saves| - 1], name)
  }

  function SavepointCmd<S>(d: Dialect, m: Machine<S>, name: nat): Machine<S>
  {
    m.(saves := (if d == Replacing then Without(m.saves, name) else m.saves) + [Save(name, m.db)])
  }

  /** ROLLBACK TO keeps the named savepoint and drops the newer ones. */
  function RollbackToCmd<S>(m: Machine<S>, name: nat): (Machine<S>, bool)
  {
    var i := Newest(m.saves, name);
    if i < 0 then (m, false) else (m.(db := m.saves[i].db, saves := m.saves[..i + 1]), true)
  }

  /** RELEASE drops the named savepoint and the newer ones, keeping the data. */
  function ReleaseCmd<S>(m: Machine<S>, name: nat): (Machine<S>, bool)
  {
    var i := Newest(m.saves, name);
    if i < 0 then (m, false) else (m.(saves := m.saves[..i]), true)
  }

  // ------------------------------------------------- what the code issues

  /** A callback running on a handle of the given depth. */
  ghost function Issue<S>(d: Dialect, depth: nat, p: Prog<S>, m: Machine<S>): (Machine<S>, Outcome)
    decreases p, 0
  {
    match p
    case Done => (m, Ok)
    case Fail => (m, Err)
    case Panic => (m, Panicked)
    case Write(change, next) => Issue(d, depth, next, m.(db := change(m.db)))
    case If(test, yes, no) => if test(m.db) then Issue(d, depth, yes, m) else Issue(d, depth, no, m)
    case Nest(body, onOk, onErr, onPanic) =>
      var (m1, o) := Nested(d, depth, body, m);
      match o
      case Ok => Issue(d, depth, onOk, m1)
      case Err => Issue(d, depth, onErr, m1)
      case Panicked => Issue(d, depth, onPanic, m1)
  }

  /** TransactionContext on a handle that is already inside a transaction. */
  ghost function Nested<S>(d: Dialect, depth: nat, body: Prog<S>, m: Machine<S>): (Machine<S>, Outcome)
    decreases body, 1
  {
    var (m1, o) := Issue(d, depth + 1, body, SavepointCmd(d, m, depth));
    Close(depth, m1, o)
  }

  /** The end of a nested block. A panic unwinds past it, so nothing is issued. */
  function Close<S>(depth: nat, m: Machine<S>, o: Outcome): (Machine<S>, Outcome)
  {
    match o
    case Err => (RollbackToCmd(m, depth).0, Err)
    case Panicked => (m, Panicked)
    case Ok => var (m1, released) := ReleaseCmd(m, depth); (m1, if released then Ok else Err)
  }

  /** TransactionContext on a fresh handle: BEGIN, run at depth 1, recover, COMMIT or ROLLBACK. */
  ghost function Outermost<S>(d: Dialect, p: Prog<S>, db: S): (S, Outcome)
  {
    var (m, o) := Issue(d, 1, p, Machine(db, db, []));
    if o == Ok then (m.db, Ok) else (m.begun, Err)
  }

  // ---------------------------------------------------------------- proof

  /** What the code really means: a recovered panic keeps the panicking block's writes. */
  ghost function Meaning<S>(p: Prog<S>, db: S): (S, Outcome)
    decreases p
  {
    match p
    case Done => (db, Ok)
    case Fail => (db, Err)
    case Panic => (db, Panicked)
    case Write(change, next) => Meaning(next, change(db))
    case If(test, yes, no) => if test(db) then Meaning(yes, db) else Meaning(no, db)
    case Nest(body, onOk, onErr, onPanic) =>
      var (db1, o) := Meaning(body, db);
      match o
      case Ok => Meaning(onOk, db1)
      case Err => Meaning(onErr, db)
      case Panicked => Meaning(onPanic, db1)
  }

  /** The savepoints of enclosing blocks: those named below the depth. */
  ghost function Below<S>(saves: seq<Save<S>>, depth: nat): seq<Save<S>>
  {
    if saves == [] then []
    else
      var front, last := Below(saves[..|saves| - 1], depth), saves[|saves| - 1];
      if last.name < depth then front + [last] else front
  }

  lemma {:induction false} BelowAppend<S>(a: seq<Save<S>>, x: Save<S>, depth: nat)
    ensures Below(a + [x], depth) == if x.name < depth then Below(a, depth) + [x] else Below(a, depth)
  {
    assert (a + [x])[..|a|] == a;
  }

  lemma {:induction false} BelowWithout<S>(saves: seq<Save<S>>, name: nat, depth: nat)
    requires depth <= name
    ensures Below(Without(saves, name), depth) == Below(saves, depth)
  {
    if saves != [] {
      BelowWithout(saves[..|saves| - 1], name, depth);
      if saves[|saves| - 1].name != name {
        BelowAppend(Without(saves[..|saves| - 1], name), saves[|saves| - 1], depth);
      }
    }
  }

  /** Lowering the bar twice is lowering it once. */
  lemma {:induction false} BelowLower<S>(saves: seq<Save<S>>, depth: nat)
    ensures Below(Below(saves, depth + 1), depth) == Below(saves, depth)
  {
    if saves != [] {
      var front, last := saves[..|saves| - 1], saves[|saves| - 1];
      BelowLower(front, depth);
      if last.name < depth + 1 {
        BelowAppend(Below(front, depth + 1), last, depth);
      }
    }
  }

  /**
   If the newest savepoint named at most depth is x, of that very depth, then
   it is the one ROLLBACK TO and RELEASE find, and cutting there loses nothing
   that enclosing blocks need.
   */
  lemma {:induction false} NewestIsOurs<S>(saves: seq<Save<S>>, base: seq<Save<S>>, x: Save<S>, depth: nat)
    requires x.name == depth && Below(saves, depth + 1) == base + [x]
    ensures var i := Newest(saves, depth);
      i >= 0 && saves[i] == x && Below(saves[..i + 1], depth + 1) == base + [x] && Below(saves[..i], depth + 1) == base
  {
    var front, last := saves[..|saves| - 1], saves[|saves| - 1];
    var low := Below(saves, depth + 1);
    assert low[|low| - 1] == x;
    if last.name == depth {
      assert Below(front, depth + 1) + [last] == base + [x];
      assert saves[..|saves|] == saves;
      assert Below(front, depth + 1) == (base + [x])[..|base|];
    } else {
      NewestIsOurs(front, base, x, depth);
      var i := Newest(saves, depth);
      assert front[..i + 1] == saves[..i + 1] && front[..i] == saves[..i];
    }
  }

  /** So whichever way a block ends, RELEASE never fails and enclosing blocks find the stack as it was. */
  lemma CloseKeepsBelow<S>(m: Machine<S>, kept: seq<Save<S>>, x: Save<S>, depth: nat, o: Outcome)
    requires x.name == depth && Below(m.saves, depth + 1) == Below(kept, depth + 1) + [x]
    ensures var (m1, o1) := Close(depth, m, o);
      && o1 == o && m1.begun == m.begun && m1.db == (if o == Err then x.db else m.db)
      && Below(m1.saves, depth) == Below(kept, depth)
  {
    var i := Newest(m.saves, depth);
    NewestIsOurs(m.saves, Below(kept, depth + 1), x, depth);
    BelowAppend(Below(kept, depth + 1), x, depth);
    BelowLower(kept, depth);
    BelowLower(match o case Ok => m.saves[..i] case Err => m.saves[..i + 1] case Panicked => m.saves, depth);
  }

  /**
   The machine follows the meaning: same data, same outcome, and every savepoint
   of an enclosing block still in place.
   */
  lemma {:induction false} IssueFollowsMeaning<S>(d: Dialect, depth: nat, p: Prog<S>, m: Machine<S>)
    ensures var (m1, o) := Issue(d, depth, p, m);
      && (m1.db, o) == Meaning(p, m.db)
      && m1.begun == m.begun
      && Below(m1.saves, depth) == Below(m.saves, depth)
    decreases p, 0
  {
    match p
    case Done =>
    case Fail =>
    case Panic =>
    case Write(change, next) => IssueFollowsMeaning(d, depth, next, m.(db := change(m.db)));
    case If(test, yes, no) => IssueFollowsMeaning(d, depth, if test(m.db) then yes else no, m);
    case Nest(body, onOk, onErr, onPanic) =>
      NestedFollowsMeaning(d, depth, body, m);
      var (m1, o) := Nested(d, depth, body, m);
      IssueFollowsMeaning(d, depth, if o == Ok then onOk else if o == Err then onErr else onPanic, m1);
  }

  /** One nested block: kept on success, undone on error, left in place on panic; RELEASE never fails. */
  lemma {:induction false} NestedFollowsMeaning<S>(d: Dialect, depth: nat, body: Prog<S>, m: Machine<S>)
    ensures var (m1, o) := Nested(d, depth, body, m); var (db1, o1) := Meaning(body, m.db);
      && o == o1
      && m1.db == (if o == Err then m.db else db1)
      && m1.begun == m.begun
      && Below(m1.saves, depth) == Below(m.saves, depth)
    decreases body, 1
  {
    var started := SavepointCmd(d, m, depth);
    SavepointKeepsBelow(d, m, depth);
    IssueFollowsMeaning(d, depth + 1, body, started);
    var (ended, o) := Issue(d, depth + 1, body, started);
    CloseKeepsBelow(ended, started.saves[..|started.saves| - 1], Save(depth, m.db), depth, o);
  }

  lemma SavepointKeepsBelow<S>(d: Dialect, m: Machine<S>, depth: nat)
    ensures var saves := SavepointCmd(d, m, depth).saves; var kept := saves[..|saves| - 1];
      && Below(saves, depth + 1) == Below(kept, depth + 1) + [Save(depth, m.db)]
      && Below(kept, depth) == Below(m.saves, depth)
  {
    var kept := if d == Replacing then Without(m.saves, depth) else m.saves;
    assert SavepointCmd(d, m, depth).saves[..|kept|] == kept;
    BelowWithout(m.saves, depth, depth);
  }

  /** A nested call that does not end well leaves a trace exactly when it panics with changed data. */
  lemma NestedLeavesTraceExactly<S>(d: Dialect, depth: nat, body: Prog<S>, m: Machine<S>)
    ensures var (m1, o) := Nested(d, depth, body, m); var (db1, o1) := Meaning(body, m.db);
      o != Ok && m1.db != m.db <==> o1 == Panicked && db1 != m.db
  {
    NestedFollowsMeaning(d, depth, body, m);
  }

  /** Whatever a callback reads and however its nested calls end, it ends in this outcome. */
  ghost predicate AlwaysEnds<S>(p: Prog<S>, o: Outcome)
  {
    match p
    case Done => o == Ok
    case Fail => o == Err
    case Panic => o == Panicked
    case Write(_, next) => AlwaysEnds(next, o)
    case If(_, yes, no) => AlwaysEnds(yes, o) && AlwaysEnds(no, o)
    case Nest(_, onOk, onErr, onPanic) => AlwaysEnds(onOk, o) && AlwaysEnds(onErr, o) && AlwaysEnds(onPanic, o)
  }

  /** When the block panics, the data is as it was: the per-block condition of NestedLeavesTraceExactly. */
  ghost predicate PanicsUnchanged<S(!new)>(body: Prog<S>)
  {
    forall db :: Meaning(body, db).1 == Panicked ==> Meaning(body, db).0 == db
  }

  /**
   No callback carries on after a nested panic that may have left writes behind:
   having recovered it, the callback returns an error, or panics in its turn.
   */
  ghost predicate RecoversSafely<S(!new)>(p: Prog<S>)
  {
    match p
    case Done => true
    case Fail => true
    case Panic => true
    case Write(_, next) => RecoversSafely(next)
    case If(_, yes, no) => RecoversSafely(yes) && RecoversSafely(no)
    case Nest(body, onOk, onErr, onPanic) =>
      && RecoversSafely(body) && RecoversSafely(onOk) && RecoversSafely(onErr)
      && (|| AlwaysEnds(onPanic, Err)
          || AlwaysEnds(onPanic, Panicked)
          || (PanicsUnchanged(body) && RecoversSafely(onPanic)))
  }

  lemma {:induction false} AlwaysEndsSo<S>(p: Prog<S>, o: Outcome, db: S)
    requires AlwaysEnds(p, o)
    ensures Meaning(p, db).1 == AllOrNothing(p, db).1 == o
    decreases p
  {
    match p
    case Done =>
    case Fail =>
    case Panic =>
    case Write(change, next) => AlwaysEndsSo(next, o, change(db));
    case If(test, yes, no) => AlwaysEndsSo(if test(db) then yes else no, o, db);
    case Nest(body, onOk, onErr, onPanic) =>
      AlwaysEndsSo(onOk, o, Meaning(body, db).0);
      AlwaysEndsSo(onOk, o, AllOrNothing(body, db).0);
      AlwaysEndsSo(onErr, o, db);
      AlwaysEndsSo(onPanic, o, Meaning(body, db).0);
      AlwaysEndsSo(onPanic, o, db);
  }

  lemma {:induction false} MeaningIsAllOrNothing<S(!new)>(p: Prog<S>, db: S)
    requires RecoversSafely(p)
    ensures Meaning(p, db).1 == AllOrNothing(p, db).1
    ensures Meaning(p, db).1 == Ok ==> Meaning(p, db).0 == AllOrNothing(p, db).0
    decreases p
  {
    match p
    case Done =>
    case Fail =>
    case Panic =>
    case Write(change, next) => MeaningIsAllOrNothing(next, change(db));
    case If(test, yes, no) => MeaningIsAllOrNothing(if test(db) then yes else no, db);
    case Nest(body, onOk, onErr, onPanic) =>
      MeaningIsAllOrNothing(body, db);
      var (db1, o) := Meaning(body, db);
      if o == Ok {
        MeaningIsAllOrNothing(onOk, db1);
      } else if o == Err {
        MeaningIsAllOrNothing(onErr, db);
      } else if PanicsUnchanged(body) && RecoversSafely(onPanic) {
        MeaningIsAllOrNothing(onPanic, db);
      } else {
        var end := if AlwaysEnds(onPanic, Err) then Err else Panicked;
        AlwaysEndsSo(onPanic, end, db1);
        AlwaysEndsSo(onPanic, end, db);
      }
  }

  /** The compilation is correct in both dialects: the issued commands give the all-or-nothing result. */
  lemma TransactionIsAllOrNothing<S(!new)>(d: Dialect, p: Prog<S>, db: S)
    requires RecoversSafely(p)
    ensures Outermost(d, p, db) == Intended(p, db)
  {
    IssueFollowsMeaning(d, 1, p, Machine(db, db, []));
    MeaningIsAllOrNothing(p, db);
  }

  /**
   The per-block condition cannot be weakened: a block may be followed by any safe
   recovery exactly when it panics with unchanged data only.
   */
  lemma SafeInAllContextsExactly<S(!new)>(d: Dialect, body: Prog<S>)
    requires RecoversSafely(body)
    ensures (forall db, onPanic :: RecoversSafely(onPanic) ==> FaithfulAfter(d, body, onPanic, db))
            <==> PanicsUnchanged(body)
  {
    if PanicsUnchanged(body) {
      forall db, onPanic | RecoversSafely(onPanic)
        ensures FaithfulAfter(d, body, onPanic, db)
      {
        TransactionIsAllOrNothing(d, Nest(body, Done, Fail, onPanic), db);
      }
    } else {
      var db :| Meaning(body, db).1 == Panicked && Meaning(body, db).0 != db;
      MeaningIsAllOrNothing(body, db);
      RecoveredTraceIsCommitted(d, body, db);
    }
  }

  lemma RecoveredTraceIsCommitted<S>(d: Dialect, body: Prog<S>, db: S)
    requires Meaning(body, db).1 == Panicked && Meaning(body, db).0 != db && AllOrNothing(body, db).1 == Panicked
    ensures !FaithfulAfter(d, body, Done, db)
  {
    var p: Prog<S> := Nest(body, Done, Fail, Done);
    TransactionFollowsMeaning(d, p, db);
    assert Meaning(p, db) == Meaning(Done, Meaning(body, db).0) == (Meaning(body, db).0, Ok);
    assert AllOrNothing(p, db) == AllOrNothing(Done, db) == (db, Ok);
  }

  /** A transaction that runs the block and recovers its panic commits what all-or-nothing promises. */
  ghost predicate FaithfulAfter<S>(d: Dialect, body: Prog<S>, onPanic: Prog<S>, db: S)
  {
    Outermost(d, Nest(body, Done, Fail, onPanic), db) == Intended(Nest(body, Done, Fail, onPanic), db)
  }

  /** Even when panics are recovered half-way, the outermost block commits its meaning or nothing. */
  lemma TransactionFollowsMeaning<S>(d: Dialect, p: Prog<S>, db: S)
    ensures var (db1, o) := Meaning(p, db);
      Outermost(d, p, db) == if o == Ok then (db1, Ok) else (db, Err)
  {
    IssueFollowsMeaning(d, 1, p, Machine(db, db, []));
  }

  /** A callback that recovers a nested panic and carries on commits the nested writes. */
  lemma RecoveredPanicKeepsWrites<S>(d: Dialect, change: S -> S, db: S)
    requires change(db) != db
    ensures var p := Nest(Write(change, Panic), Done, Fail, Done);
      Outermost(d, p, db) == (change(db), Ok) && Intended(p, db) == (db, Ok)
  {
    var inner: Prog<S> := Write(change, Panic);
    var p: Prog<S> := Nest(inner, Done, Fail, Done);
    TransactionFollowsMeaning(d, p, db);
    assert Meaning(inner, db) == AllOrNothing(inner, db) == (change(db), Panicked);
    assert Meaning(p, db) == (change(db), Ok);
    assert AllOrNothing(p, db) == (db, Ok);
  }

  // ------------------------------------------------------ the connection

  /** The one connection all handles of a transaction share. */
  class Tx<S> {
    const dialect: Dialect
    var m: Machine<S>

    constructor Begin(d: Dialect, db: S)
      ensures dialect == d && m == Machine(db, db, [])
    {
      dialect := d;
      m := Machine(db, db, []);
    }

    /** A callback using the handle of the given depth. */
    method Run(depth: nat, p: Prog<S>) returns (o: Outcome)
      modifies this
      ensures (m, o) == Issue(dialect, depth, p, old(m))
      decreases p, 0
    {
      match p {
        case Done => o := Ok;
        case Fail => o := Err;
        case Panic => o := Panicked;
        case Write(change, next) =>
          m := m.(db := change(m.db));
          o := Run(depth, next);
        case If(test, yes, no) =>
          if test(m.db) {
            o := Run(depth, yes);
          } else {
            o := Run(depth, no);
          }
        case Nest(body, onOk, onErr, onPanic) =>
          var inner := NestedTransaction(depth, body);
          match inner {
            case Ok => o := Run(depth, onOk);
            case Err => o := Run(depth, onErr);
            case Panicked => o := Run(depth, onPanic);
          }
      }
    }

    /** The savepoint branch of TransactionContext. A panic unwinds past it. */
    method NestedTransaction(depth: nat, body: Prog<S>) returns (o: Outcome)
      modifies this
      ensures (m, o) == Nested(dialect, depth, body, old(m))
      decreases body, 1
    {
      m := SavepointCmd(dialect, m, depth);
      o := Run(depth + 1, body);
      if o == Panicked {
        return;
      }
      if o == Err {
        var (rolled, _) := RollbackToCmd(m, depth);
        m := rolled;
        return;
      }
      var (released, found) := ReleaseCmd(m, depth);
      m := released;
      if !found {
        o := Err;
      }
    }
  }

  /** The outermost Transaction call: what it commits is what all-or-nothing promises. */
  method Transaction<S(!new)>(d: Dialect, db: S, p: Prog<S>) returns (committed: S, o: Outcome)
    ensures (committed, o) == Outermost(d, p, db)
    ensures RecoversSafely(p) ==> (committed, o) == Intended(p, db)
  {
    var tx := new Tx.Begin(d, db);
    o := tx.Run(1, p);
    if o == Ok {
      committed := tx.m.db;
    } else {
      committed, o := tx.m.begun, Err;
    }
    if RecoversSafely(p) {
      TransactionIsAllOrNothing(d, p, db);
    }
  }
}
