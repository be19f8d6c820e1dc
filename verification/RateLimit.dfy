/**
 The sliding-window rate limiter: per key, the times of the requests admitted in
 the last window. Allow and cleanup passes are single steps; times are integers.
 */
module RateLimit {
  import opened Seqs

  datatype Config = Config(max: int, window: int)

  /** The times strictly after a cutoff, in order. */
  function Recent(ts: seq<int>, cutoff: int): (r: seq<int>)
  {
    if ts == [] then []
    else
      var front, t := Recent(ts[..|ts| - 1], cutoff), ts[|ts| - 1];
      if t > cutoff then front + [t] else front
  }

  type Table = map<string, seq<int>>

  function Times(m: Table, key: string): seq<int>
  {
    if key in m then m[key] else []
  }

  datatype Answer = Granted | Refused | Left(n: int) | Silent

  datatype Step = Allow(key: string) | Remaining(key: string) | Cleanup

  /** What the program does: prune, then decide. */
  function Decide(cfg: Config, entries: Table, step: Step, now: int): (Table, Answer)
  {
    match step
    case Allow(key) =>
      var valid := Recent(Times(entries, key), now - cfg.window);
      if |valid| >= cfg.max then (entries[key := valid], Refused) else (entries[key := valid + [now]], Granted)
    case Remaining(key) =>
      var left := cfg.max - |Recent(Times(entries, key), now - cfg.window)|;
      (entries[key := Times(entries, key)], Left(if left < 0 then 0 else left))
    case Cleanup => (Swept(entries, now - cfg.window), Silent)
  }

  /** The cleanup pass: prune every entry and drop the empty ones. */
  function Swept(entries: Table, cutoff: int): Table
  {
    map k | k in entries && Recent(entries[k], cutoff) != [] :: Recent(entries[k], cutoff)
  }

  /** The reference limiter: it forgets nothing and cleanup does nothing. */
  function Refer(cfg: Config, log: Table, step: Step, now: int): (Table, Answer)
  {
    match step
    case Allow(key) =>
      if |Recent(Times(log, key), now - cfg.window)| >= cfg.max then (log, Refused)
      else (log[key := Times(log, key) + [now]], Granted)
    case Remaining(key) =>
      var left := cfg.max - |Recent(Times(log, key), now - cfg.window)|;
      (log, Left(if left < 0 then 0 else left))
    case Cleanup => (log, Silent)
  }

  /** A run: steps with the time of each. */
  type Run = seq<(Step, int)>

  predicate ClockMovesOn(run: Run, start: int)
  {
    run == [] || (run[0].1 >= start && ClockMovesOn(run[1..], run[0].1))
  }

  function Answers(cfg: Config, entries: Table, run: Run): seq<Answer>
    decreases |run|
  {
    if run == [] then []
    else
      var (next, a) := Decide(cfg, entries, run[0].0, run[0].1);
      [a] + Answers(cfg, next, run[1..])
  }

  function Reference(cfg: Config, log: Table, run: Run): seq<Answer>
    decreases |run|
  {
    if run == [] then []
    else
      var (next, a) := Refer(cfg, log, run[0].0, run[0].1);
      [a] + Reference(cfg, next, run[1..])
  }

  // ------------------------------------- pruning is invisible: refinement

  lemma {:induction false} RecentTwice(ts: seq<int>, c: int, d: int)
    requires c <= d
    ensures Recent(Recent(ts, c), d) == Recent(ts, d)
  {
    if ts != [] {
      var front, t := ts[..|ts| - 1], ts[|ts| - 1];
      RecentTwice(front, c, d);
      if t > c {
        RecentPush(Recent(front, c), t, d);
      }
    }
  }

  lemma RecentPush(ts: seq<int>, t: int, c: int)
    ensures Recent(ts + [t], c) == Recent(ts, c) + if t > c then [t] else []
  {
    assert (ts + [t])[..|ts|] == ts;
  }

  /** The entries and the full log agree on everything newer than the cutoff. */
  ghost predicate SameRecent(entries: Table, log: Table, cutoff: int)
  {
    forall key :: Recent(Times(entries, key), cutoff) == Recent(Times(log, key), cutoff)
  }

  lemma SameRecentLater(entries: Table, log: Table, c: int, d: int)
    requires SameRecent(entries, log, c) && c <= d
    ensures SameRecent(entries, log, d)
  {
    forall key
      ensures Recent(Times(entries, key), d) == Recent(Times(log, key), d)
    {
      RecentTwice(Times(entries, key), c, d);
      RecentTwice(Times(log, key), c, d);
    }
  }

  /** One entry, pruned or not, extended or not, against the same key's log. */
  lemma SameAfterPrune(es: seq<int>, ts: seq<int>, now: int, cutoff: int)
    requires Recent(es, cutoff) == Recent(ts, cutoff)
    ensures Recent(Recent(es, cutoff), cutoff) == Recent(ts, cutoff)
    ensures Recent(Recent(es, cutoff) + [now], cutoff) == Recent(ts + [now], cutoff)
  {
    RecentTwice(es, cutoff, cutoff);
    RecentPush(Recent(es, cutoff), now, cutoff);
    RecentPush(ts, now, cutoff);
  }

  lemma SweptKeepsRecent(entries: Table, cutoff: int, key: string)
    ensures Recent(Times(Swept(entries, cutoff), key), cutoff) == Recent(Times(entries, key), cutoff)
  {
    RecentTwice(Times(entries, key), cutoff, cutoff);
  }

  lemma SameExcept(entries: Table, log: Table, key: string, es: seq<int>, ts: seq<int>, cutoff: int)
    requires SameRecent(entries, log, cutoff) && Recent(es, cutoff) == Recent(ts, cutoff)
    ensures SameRecent(entries[key := es], log[key := ts], cutoff)
  {
    var entries', log' := entries[key := es], log[key := ts];
    forall k
      ensures Recent(Times(entries', k), cutoff) == Recent(Times(log', k), cutoff)
    {
      assert Recent(Times(entries, k), cutoff) == Recent(Times(log, k), cutoff);
    }
  }

  lemma SameRewritten(entries: Table, log: Table, key: string, es: seq<int>, cutoff: int)
    requires SameRecent(entries, log, cutoff) && Recent(es, cutoff) == Recent(Times(log, key), cutoff)
    ensures SameRecent(entries[key := es], log, cutoff)
  {
    forall k
      ensures Recent(Times(entries[key := es], k), cutoff) == Recent(Times(log, k), cutoff)
    {
      assert Recent(Times(entries, k), cutoff) == Recent(Times(log, k), cutoff);
    }
  }

  lemma SameSwept(entries: Table, log: Table, cutoff: int)
    requires SameRecent(entries, log, cutoff)
    ensures SameRecent(Swept(entries, cutoff), log, cutoff)
  {
    forall k
      ensures Recent(Times(Swept(entries, cutoff), k), cutoff) == Recent(Times(log, k), cutoff)
    {
      SweptKeepsRecent(entries, cutoff, k);
      assert Recent(Times(entries, k), cutoff) == Recent(Times(log, k), cutoff);
    }
  }

  lemma DecideRefines(cfg: Config, entries: Table, log: Table, step: Step, now: int)
    requires SameRecent(entries, log, now - cfg.window)
    ensures Decide(cfg, entries, step, now).1 == Refer(cfg, log, step, now).1
    ensures SameRecent(Decide(cfg, entries, step, now).0, Refer(cfg, log, step, now).0, now - cfg.window)
  {
    var cutoff := now - cfg.window;
    match step
    case Allow(key) =>
      var es, ts := Times(entries, key), Times(log, key);
      assert Recent(es, cutoff) == Recent(ts, cutoff);
      SameAfterPrune(es, ts, now, cutoff);
      SameRewritten(entries, log, key, Recent(es, cutoff), cutoff);
      SameExcept(entries, log, key, Recent(es, cutoff) + [now], ts + [now], cutoff);
    case Remaining(key) =>
      assert Recent(Times(entries, key), cutoff) == Recent(Times(log, key), cutoff);
      SameRewritten(entries, log, key, Times(entries, key), cutoff);
    case Cleanup =>
      SameSwept(entries, log, cutoff);
  }

  /** The program answers as the reference limiter does, whenever cleanup runs. */
  lemma {:induction false} AnswersAgree(cfg: Config, entries: Table, log: Table, run: Run, start: int)
    requires SameRecent(entries, log, start - cfg.window) && ClockMovesOn(run, start)
    ensures Answers(cfg, entries, run) == Reference(cfg, log, run)
    decreases |run|
  {
    if run != [] {
      var (step, now) := run[0];
      SameRecentLater(entries, log, start - cfg.window, now - cfg.window);
      DecideRefines(cfg, entries, log, step, now);
      AnswersAgree(cfg, Decide(cfg, entries, step, now).0, Refer(cfg, log, step, now).0, run[1..], now);
    }
  }

  /** Running the cleanup pass at any moment changes no later answer. */
  lemma CleanupIsInvisible(cfg: Config, entries: Table, run: Run, now: int)
    requires ClockMovesOn(run, now)
    ensures Answers(cfg, Swept(entries, now - cfg.window), run) == Answers(cfg, entries, run)
  {
    SameSwept(entries, entries, now - cfg.window);
    AnswersAgree(cfg, Swept(entries, now - cfg.window), entries, run, now);
    AnswersAgree(cfg, entries, entries, run, now);
  }

  // ------------------------------------------------------ the window bound

  /** How many of the times lie in [from, to). */
  function CountIn(ts: seq<int>, from: int, to: int): nat
  {
    if ts == [] then 0
    else CountIn(ts[..|ts| - 1], from, to) + if from <= ts[|ts| - 1] < to then 1 else 0
  }

  /** What admissions keep: times in order, each with fewer than max in the window before it. */
  ghost predicate Admitted(cfg: Config, ts: seq<int>, now: int)
  {
    ts == [] ||
    var front, t := ts[..|ts| - 1], ts[|ts| - 1];
    t <= now && |Recent(front, t - cfg.window)| < cfg.max && Admitted(cfg, front, t)
  }

  lemma {:induction false} CountWithinRecent(ts: seq<int>, from: int, to: int, cutoff: int)
    requires cutoff < from
    ensures CountIn(ts, from, to) <= |Recent(ts, cutoff)|
  {
    if ts != [] {
      CountWithinRecent(ts[..|ts| - 1], from, to, cutoff);
    }
  }

  /** At most max admissions in any half-open interval of one window. */
  lemma {:induction false} WindowBound(cfg: Config, ts: seq<int>, now: int, from: int)
    requires Admitted(cfg, ts, now) && cfg.max >= 0
    ensures CountIn(ts, from, from + cfg.window) <= cfg.max
  {
    if ts != [] {
      var front, t := ts[..|ts| - 1], ts[|ts| - 1];
      WindowBound(cfg, front, t, from);
      if from <= t < from + cfg.window {
        CountWithinRecent(front, from, from + cfg.window, t - cfg.window);
      }
    }
  }

  lemma {:induction false} RecentIsCount(cfg: Config, ts: seq<int>, now: int, cutoff: int, to: int)
    requires Admitted(cfg, ts, now) && now < to
    ensures |Recent(ts, cutoff)| == CountIn(ts, cutoff + 1, to)
  {
    if ts != [] {
      RecentIsCount(cfg, ts[..|ts| - 1], ts[|ts| - 1], cutoff, to);
    }
  }

  /** The window that ends now holds as many as are recent, and never more than max. */
  lemma RecentIsBounded(cfg: Config, ts: seq<int>, last: int, now: int)
    requires Admitted(cfg, ts, last) && last <= now && cfg.max >= 0
    ensures |Recent(ts, now - cfg.window)| == CountIn(ts, now - cfg.window + 1, now + 1) <= cfg.max
  {
    var from := now - cfg.window + 1;
    RecentIsCount(cfg, ts, last, now - cfg.window, now + 1);
    WindowBound(cfg, ts, last, from);
    assert from + cfg.window == now + 1;
  }

  /** The log after a run of the reference limiter. */
  function LogAfter(cfg: Config, log: Table, run: Run): Table
    decreases |run|
  {
    if run == [] then log else LogAfter(cfg, Refer(cfg, log, run[0].0, run[0].1).0, run[1..])
  }

  function Clock(run: Run, start: int): int
  {
    if run == [] then start else run[|run| - 1].1
  }

  lemma AdmitStep(cfg: Config, log: Table, step: Step, now: int, start: int, key: string)
    requires Admitted(cfg, Times(log, key), start) && start <= now
    ensures Admitted(cfg, Times(Refer(cfg, log, step, now).0, key), now)
  {
    var ts := Times(log, key);
    AdmittedLater(cfg, ts, start, now);
    assert (ts + [now])[..|ts|] == ts;
  }

  lemma AdmittedLater(cfg: Config, ts: seq<int>, start: int, now: int)
    requires Admitted(cfg, ts, start) && start <= now
    ensures Admitted(cfg, ts, now)
  {
  }

  /** Every run keeps, for every key, at most max admissions in any window. */
  lemma {:induction false} RunsAdmit(cfg: Config, log: Table, run: Run, start: int, key: string)
    requires Admitted(cfg, Times(log, key), start) && ClockMovesOn(run, start)
    ensures Admitted(cfg, Times(LogAfter(cfg, log, run), key), Clock(run, start))
    decreases |run|
  {
    if run != [] {
      AdmitStep(cfg, log, run[0].0, run[0].1, start, key);
      RunsAdmit(cfg, Refer(cfg, log, run[0].0, run[0].1).0, run[1..], run[0].1, key);
      assert Clock(run, start) == Clock(run[1..], run[0].1);
    }
  }

  // ------------------------------------------- back to the program's answers

  /** The times at which a run was granted a request for a key. */
  function GrantedTimes(run: Run, answers: seq<Answer>, key: string): seq<int>
    requires |answers| == |run|
    decreases |run|
  {
    if run == [] then []
    else GrantedNow(run[0].0, answers[0], run[0].1, key) + GrantedTimes(run[1..], answers[1..], key)
  }

  function GrantedNow(step: Step, a: Answer, now: int, key: string): seq<int>
  {
    if step == Allow(key) && a == Granted then [now] else []
  }

  /** The program's table after a run. */
  function EntriesAfter(cfg: Config, entries: Table, run: Run): Table
    decreases |run|
  {
    if run == [] then entries else EntriesAfter(cfg, Decide(cfg, entries, run[0].0, run[0].1).0, run[1..])
  }

  /** The reference log is nothing but the granted requests. */
  lemma {:induction false} LogIsGranted(cfg: Config, log: Table, run: Run, key: string)
    ensures |Reference(cfg, log, run)| == |run|
    ensures Times(LogAfter(cfg, log, run), key) ==
            Times(log, key) + GrantedTimes(run, Reference(cfg, log, run), key)
    decreases |run|
  {
    if run != [] {
      var (next, a) := Refer(cfg, log, run[0].0, run[0].1);
      LogIsGranted(cfg, next, run[1..], key);
      var answers := Reference(cfg, log, run);
      assert answers[0] == a && answers[1..] == Reference(cfg, next, run[1..]);
      LoggedNow(cfg, log, run[0].0, run[0].1, key);
      Assoc(Times(log, key), GrantedNow(run[0].0, a, run[0].1, key), GrantedTimes(run[1..], answers[1..], key));
    }
  }

  lemma LoggedNow(cfg: Config, log: Table, step: Step, now: int, key: string)
    ensures Times(Refer(cfg, log, step, now).0, key) ==
            Times(log, key) + GrantedNow(step, Refer(cfg, log, step, now).1, now, key)
  {
  }

  lemma {:induction false} RunKeepsRecent(cfg: Config, entries: Table, log: Table, run: Run, start: int)
    requires SameRecent(entries, log, start - cfg.window) && ClockMovesOn(run, start)
    ensures SameRecent(EntriesAfter(cfg, entries, run), LogAfter(cfg, log, run), Clock(run, start) - cfg.window)
    decreases |run|
  {
    if run != [] {
      var (step, now) := run[0];
      SameRecentLater(entries, log, start - cfg.window, now - cfg.window);
      DecideRefines(cfg, entries, log, step, now);
      RunKeepsRecent(cfg, Decide(cfg, entries, step, now).0, Refer(cfg, log, step, now).0, run[1..], now);
      assert Clock(run, start) == Clock(run[1..], now);
    }
  }

  /** What the program granted is what the reference limiter logged. */
  lemma GrantedIsLogged(cfg: Config, run: Run, start: int, key: string)
    requires ClockMovesOn(run, start)
    ensures |Answers(cfg, map[], run)| == |run|
    ensures GrantedTimes(run, Answers(cfg, map[], run), key) == Times(LogAfter(cfg, map[], run), key)
  {
    AnswersAgree(cfg, map[], map[], run, start);
    LogIsGranted(cfg, map[], run, key);
  }

  /** In every run of the program, any interval of one window has at most max granted requests a key. */
  lemma LimitHolds(cfg: Config, run: Run, start: int, key: string, from: int)
    requires ClockMovesOn(run, start) && cfg.max >= 0
    ensures |Answers(cfg, map[], run)| == |run|
    ensures CountIn(GrantedTimes(run, Answers(cfg, map[], run), key), from, from + cfg.window) <= cfg.max
  {
    GrantedIsLogged(cfg, run, start, key);
    RunsAdmit(cfg, map[], run, start, key);
    WindowBound(cfg, Times(LogAfter(cfg, map[], run), key), Clock(run, start), from);
  }

  /**
   After every run the program refuses exactly when max requests were granted in
   the window that ends now, and Remaining reports what is left of it.
   */
  lemma RefusalIsJustified(cfg: Config, run: Run, start: int, key: string, now: int)
    requires ClockMovesOn(run, start) && now >= Clock(run, start) && cfg.max >= 0
    ensures |Answers(cfg, map[], run)| == |run|
    ensures DecidesOn(cfg, EntriesAfter(cfg, map[], run), key, now,
              CountIn(GrantedTimes(run, Answers(cfg, map[], run), key), now - cfg.window + 1, now + 1))
  {
    RecentIsGranted(cfg, run, start, key, now);
    var granted := GrantedTimes(run, Answers(cfg, map[], run), key);
    DecidesBy(cfg, EntriesAfter(cfg, map[], run), key, now, CountIn(granted, now - cfg.window + 1, now + 1));
  }

  lemma DecidesBy(cfg: Config, entries: Table, key: string, now: int, count: nat)
    requires |Recent(Times(entries, key), now - cfg.window)| == count <= cfg.max
    ensures DecidesOn(cfg, entries, key, now, count)
  {
  }

  /** What the program answers when count requests were granted in the window that ends now. */
  ghost predicate DecidesOn(cfg: Config, entries: Table, key: string, now: int, count: nat)
  {
    && (Decide(cfg, entries, Allow(key), now).1 == Refused <==> count == cfg.max)
    && Decide(cfg, entries, Remaining(key), now).1 == Left(cfg.max - count)
  }

  /** What the program still remembers of a key is what it granted in the window that ends now. */
  lemma RecentIsGranted(cfg: Config, run: Run, start: int, key: string, now: int)
    requires ClockMovesOn(run, start) && now >= Clock(run, start) && cfg.max >= 0
    ensures |Answers(cfg, map[], run)| == |run|
    ensures |Recent(Times(EntriesAfter(cfg, map[], run), key), now - cfg.window)|
            == CountIn(GrantedTimes(run, Answers(cfg, map[], run), key), now - cfg.window + 1, now + 1)
            <= cfg.max
  {
    var entries, log := EntriesAfter(cfg, map[], run), LogAfter(cfg, map[], run);
    GrantedIsLogged(cfg, run, start, key);
    RunKeepsRecent(cfg, map[], map[], run, start);
    SameRecentLater(entries, log, Clock(run, start) - cfg.window, now - cfg.window);
    assert Recent(Times(entries, key), now - cfg.window) == Recent(Times(log, key), now - cfg.window);
    RunsAdmit(cfg, map[], run, start, key);
    RecentIsBounded(cfg, Times(log, key), Clock(run, start), now);
  }

  // ---------------------------------------------------------- the objects

  /** The eviction loop as it runs: kept times slide to the front of the array they came from. */
  method EvictInPlace(a: array<int>, len: nat, cutoff: int) returns (n: nat)
    requires len <= a.Length
    modifies a
    ensures n <= len && a[..n] == Recent(old(a[..len]), cutoff)
  {
    ghost var was := a[..len];
    n := 0;
    for i := 0 to len
      invariant n <= i
      invariant a[..n] == Recent(was[..i], cutoff)
      invariant a[i..len] == was[i..]
    {
      var t := a[i];
      assert t == a[i..len][0] == was[i];
      assert was[..i + 1][..i] == was[..i];
      assert a[i + 1..len] == a[i..len][1..] == was[i + 1..];
      if t > cutoff {
        a[n] := t;
        n := n + 1;
        assert a[..n] == a[..n - 1] + [t];
      }
    }
    assert was[..len] == was;
  }

  /** The store of entries, each a list of times. */
  class Limiter {
    const cfg: Config
    var entries: Table

    constructor (c: Config)
      ensures cfg == c && entries == map[]
    {
      cfg := c;
      entries := map[];
    }

    /** Evict on a copy of the list, in place. */
    method Evict(ts: seq<int>, cutoff: int) returns (valid: seq<int>)
      ensures valid == Recent(ts, cutoff)
    {
      var a := new int[|ts|](i requires 0 <= i < |ts| => ts[i]);
      assert a[..|ts|] == ts;
      var n := EvictInPlace(a, |ts|, cutoff);
      valid := a[..n];
    }

    method Allow(key: string, now: int) returns (ok: bool)
      modifies this
      ensures (entries, if ok then Granted else Refused) == Decide(cfg, old(entries), Step.Allow(key), now)
    {
      var valid := Evict(Times(entries, key), now - cfg.window);
      entries := entries[key := valid];
      if |valid| >= cfg.max {
        return false;
      }
      entries := entries[key := valid + [now]];
      assert entries == old(entries)[key := valid + [now]];
      return true;
    }

    method Remaining(key: string, now: int) returns (left: int)
      modifies this
      ensures (entries, Left(left)) == Decide(cfg, old(entries), Step.Remaining(key), now)
    {
      var ts := Times(entries, key);
      entries := entries[key := ts];
      var count := 0;
      for i := 0 to |ts|
        invariant count == |Recent(ts[..i], now - cfg.window)|
      {
        assert ts[..i + 1][..i] == ts[..i];
        if ts[i] > now - cfg.window {
          count := count + 1;
        }
      }
      assert ts[..|ts|] == ts;
      left := if cfg.max - count < 0 then 0 else cfg.max - count;
    }

    method Cleanup(now: int)
      modifies this
      ensures (entries, Silent) == Decide(cfg, old(entries), Step.Cleanup, now)
    {
      var cutoff := now - cfg.window;
      ghost var was := entries;
      var todo := entries.Keys;
      while todo != {}
        invariant todo <= was.Keys
        invariant forall k :: k in todo ==> k in entries && entries[k] == was[k]
        invariant forall k :: k in entries && k !in todo ==>
                    k in Swept(was, cutoff) && entries[k] == Swept(was, cutoff)[k]
        invariant forall k :: k in Swept(was, cutoff) ==> k in entries
        decreases todo
      {
        var k :| k in todo;
        var valid := Evict(entries[k], cutoff);
        if valid == [] {
          entries := entries - {k};
        } else {
          entries := entries[k := valid];
        }
        todo := todo - {k};
      }
      assert entries == Swept(was, cutoff);
    }
  }
}
