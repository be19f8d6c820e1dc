/**
 The job queue: dispatch, concurrent workers that pop and process, retries with
 exponential back-off, and the dead-letter list. A payload is a value here; the
 fields the program updates in place travel with it.
 */
module JobQueue {
  import opened Options
  import Int64

  /** handled counts the calls of Handle made for this job. */
  datatype Payload = Payload(id: nat, queue: string, attempts: nat, maxAttempts: nat, availableAt: int, handled: nat)

  /** What processing meets: an undecodable payload, a Handle that returns nil, or one that fails or panics. */
  datatype Outcome = Undecodable | Success | Failure

  datatype Hand = Hand(worker: nat, payload: Payload)

  /**
   All queues in one push-ordered list (queue q is the part naming q), what
   workers hold, dead letters, finished jobs, and the IDs ever dispatched.
   */
  datatype System = System(
    waiting: seq<Payload>,
    held: seq<Hand>,
    dead: seq<Payload>,
    done: seq<Payload>,
    issued: seq<nat>)

  // ---------------------------------------------------------- operations

  const SECOND := 1_000_000_000

  function Pow2(k: nat): (p: nat)
    ensures p > 0
  {
    if k == 0 then 1 else 2 * Pow2(k - 1)
  }

  /** time.Duration(1 << attempts) * time.Second, in 64-bit nanoseconds. */
  function Backoff(attempts: nat): int
  {
    Int64.Wrap(Int64.Wrap(Pow2(attempts)) * SECOND)
  }

  function NewPayload(id: nat, queue: string, maxAttempts: int, at: int): Payload
  {
    Payload(id, queue, 0, if maxAttempts > 0 then maxAttempts else 3, at, 0)
  }

  predicate Ready(p: Payload, q: string, now: int)
  {
    p.queue == q && p.availableAt <= now
  }

  /** The oldest ready payload of a queue, or -1. */
  function FirstReady(ps: seq<Payload>, q: string, now: int): (k: int)
    ensures -1 <= k < |ps|
    ensures k >= 0 ==> Ready(ps[k], q, now) && forall j :: 0 <= j < k ==> !Ready(ps[j], q, now)
    ensures k < 0 ==> forall j :: 0 <= j < |ps| ==> !Ready(ps[j], q, now)
  {
    if ps == [] then -1
    else if Ready(ps[0], q, now) then 0
    else var k := FirstReady(ps[1..], q, now); if k < 0 then -1 else k + 1
  }

  function Without<T>(s: seq<T>, k: nat): seq<T>
    requires k < |s|
  {
    s[..k] + s[k + 1..]
  }

  /** The payload after one more attempt. */
  function Attempted(p: Payload, o: Outcome): Payload
  {
    p.(attempts := p.attempts + 1, handled := if o == Undecodable then p.handled else p.handled + 1)
  }

  /** Where process leaves the payload: dead, done, or waiting for its next attempt. */
  function Settle(s: System, p: Payload, o: Outcome, now: int): System
  {
    var p' := Attempted(p, o);
    if o == Success then s.(done := s.done + [p'])
    else if o == Undecodable || p'.attempts >= p'.maxAttempts then s.(dead := s.dead + [p'])
    else s.(waiting := s.waiting + [p'.(availableAt := now + Backoff(p'.attempts))])
  }

  // ------------------------------------------------------------ all runs

  datatype Step =
    | Dispatch(id: nat, queue: string, maxAttempts: int, at: int)
    | Pop(worker: nat, queue: string, now: int)
    | Process(slot: nat, outcome: Outcome, now: int)

  /** Fresh IDs; an idle worker pops; a busy one finishes. */
  predicate Enabled(s: System, step: Step)
  {
    match step
    case Dispatch(id, _, _, _) => id !in s.issued
    case Pop(worker, _, _) => forall i :: 0 <= i < |s.held| ==> s.held[i].worker != worker
    case Process(slot, _, _) => slot < |s.held|
  }

  function Next(s: System, step: Step): System
    requires Enabled(s, step)
  {
    match step
    case Dispatch(id, queue, max, at) =>
      s.(waiting := s.waiting + [NewPayload(id, queue, max, at)], issued := s.issued + [id])
    case Pop(worker, queue, now) =>
      var k := FirstReady(s.waiting, queue, now);
      if k < 0 then s
      else s.(waiting := Without(s.waiting, k), held := s.held + [Hand(worker, s.waiting[k])])
    case Process(slot, o, now) =>
      Settle(s.(held := Without(s.held, slot)), s.held[slot].payload, o, now)
  }

  const EMPTY := System([], [], [], [], [])

  ghost predicate IsRun(s: System, steps: seq<Step>)
    decreases |steps|
  {
    steps == [] || (Enabled(s, steps[0]) && IsRun(Next(s, steps[0]), steps[1..]))
  }

  ghost function Run(s: System, steps: seq<Step>): System
    requires IsRun(s, steps)
    decreases |steps|
  {
    if steps == [] then s else Run(Next(s, steps[0]), steps[1..])
  }

  // -------------------------------------------------------- conservation

  function Payloads(hands: seq<Hand>): (ps: seq<Payload>)
    ensures |ps| == |hands|
  {
    seq(|hands|, i requires 0 <= i < |hands| => hands[i].payload)
  }

  function Ids(ps: seq<Payload>): (ids: seq<nat>)
    ensures |ids| == |ps|
  {
    seq(|ps|, i requires 0 <= i < |ps| => ps[i].id)
  }

  /** Every place a job can be in, one after the other. */
  function Everywhere(s: System): seq<Payload>
  {
    s.waiting + Payloads(s.held) + s.dead + s.done
  }

  ghost function Bag(ps: seq<Payload>): multiset<nat>
  {
    multiset(Ids(ps))
  }

  lemma BagAppend(a: seq<Payload>, b: seq<Payload>)
    ensures Bag(a + b) == Bag(a) + Bag(b)
  {
    assert Ids(a + b) == Ids(a) + Ids(b);
  }

  lemma BagWithout(ps: seq<Payload>, k: nat)
    requires k < |ps|
    ensures Bag(ps) == Bag(Without(ps, k)) + multiset{ps[k].id}
  {
    assert ps == ps[..k] + [ps[k]] + ps[k + 1..];
    assert Ids([ps[k]]) == [ps[k].id];
    BagAppend(ps[..k] + [ps[k]], ps[k + 1..]);
    BagAppend(ps[..k], [ps[k]]);
    BagAppend(ps[..k], ps[k + 1..]);
  }

  lemma BagPush(ps: seq<Payload>, p: Payload)
    ensures Bag(ps + [p]) == Bag(ps) + multiset{p.id}
  {
    BagAppend(ps, [p]);
    assert Ids([p]) == [p.id];
  }

  lemma BagEverywhere(s: System)
    ensures Bag(Everywhere(s)) == Bag(s.waiting) + Bag(Payloads(s.held)) + Bag(s.dead) + Bag(s.done)
  {
    BagAppend(s.waiting + Payloads(s.held) + s.dead, s.done);
    BagAppend(s.waiting + Payloads(s.held), s.dead);
    BagAppend(s.waiting, Payloads(s.held));
  }

  /** Settling a payload puts it in exactly one more place. */
  lemma BagSettle(s: System, p: Payload, o: Outcome, now: int)
    ensures Bag(Everywhere(Settle(s, p, o, now))) == Bag(Everywhere(s)) + multiset{p.id}
  {
    var p' := Attempted(p, o);
    BagPlaced(s, p');
    BagPlaced(s, p'.(availableAt := now + Backoff(p'.attempts)));
  }

  /** One more payload, in whichever place. */
  lemma BagPlaced(s: System, p: Payload)
    ensures Bag(Everywhere(s.(waiting := s.waiting + [p]))) == Bag(Everywhere(s)) + multiset{p.id}
    ensures Bag(Everywhere(s.(dead := s.dead + [p]))) == Bag(Everywhere(s)) + multiset{p.id}
    ensures Bag(Everywhere(s.(done := s.done + [p]))) == Bag(Everywhere(s)) + multiset{p.id}
  {
    BagEverywhere(s);
    BagEverywhere(s.(waiting := s.waiting + [p]));
    BagEverywhere(s.(dead := s.dead + [p]));
    BagEverywhere(s.(done := s.done + [p]));
    BagPush(s.waiting, p);
    BagPush(s.dead, p);
    BagPush(s.done, p);
    OneMore(Bag(s.waiting), Bag(Payloads(s.held)), Bag(s.dead), Bag(s.done), p.id);
  }

  /** Into whichever of the places the job goes, the whole grows by it. */
  lemma OneMore(a: multiset<nat>, b: multiset<nat>, c: multiset<nat>, d: multiset<nat>, id: nat)
    ensures (a + multiset{id}) + b + c + d == (a + b + c + d) + multiset{id}
    ensures a + b + (c + multiset{id}) + d == (a + b + c + d) + multiset{id}
    ensures a + b + c + (d + multiset{id}) == (a + b + c + d) + multiset{id}
  {
  }

  lemma BagPop(s: System, k: nat, worker: nat)
    requires k < |s.waiting|
    ensures var t := s.(waiting := Without(s.waiting, k), held := s.held + [Hand(worker, s.waiting[k])]);
      Bag(Everywhere(t)) == Bag(Everywhere(s))
  {
    var t := s.(waiting := Without(s.waiting, k), held := s.held + [Hand(worker, s.waiting[k])]);
    BagEverywhere(s);
    BagEverywhere(t);
    BagWithout(s.waiting, k);
    BagPush(Payloads(s.held), s.waiting[k]);
    assert Payloads(t.held) == Payloads(s.held) + [s.waiting[k]];
  }

  lemma BagUnhand(s: System, slot: nat)
    requires slot < |s.held|
    ensures Bag(Everywhere(s)) == Bag(Everywhere(s.(held := Without(s.held, slot)))) + multiset{s.held[slot].payload.id}
  {
    var t := s.(held := Without(s.held, slot));
    BagEverywhere(s);
    BagEverywhere(t);
    BagWithout(Payloads(s.held), slot);
    assert Payloads(t.held) == Without(Payloads(s.held), slot);
  }

  /** No job is lost or doubled by a step: the places hold exactly the issued IDs. */
  lemma ConservationStep(s: System, step: Step)
    requires Enabled(s, step)
    requires Bag(Everywhere(s)) == multiset(s.issued)
    ensures Bag(Everywhere(Next(s, step))) == multiset(Next(s, step).issued)
  {
    match step
    case Dispatch(id, queue, max, at) =>
      BagEverywhere(s);
      BagEverywhere(Next(s, step));
      BagPush(s.waiting, NewPayload(id, queue, max, at));
    case Pop(worker, queue, now) =>
      var k := FirstReady(s.waiting, queue, now);
      if k >= 0 {
        BagPop(s, k, worker);
      }
    case Process(slot, o, now) =>
      BagUnhand(s, slot);
      BagSettle(s.(held := Without(s.held, slot)), s.held[slot].payload, o, now);
  }

  // ------------------------------------------------------------ attempts

  predicate Pending(p: Payload)
  {
    p.attempts < p.maxAttempts && p.handled <= p.attempts
  }

  predicate Settled(p: Payload)
  {
    p.handled <= p.attempts <= p.maxAttempts
  }

  ghost predicate AttemptsOk(s: System)
  {
    && (forall i :: 0 <= i < |s.waiting| ==> Pending(s.waiting[i]))
    && (forall i :: 0 <= i < |s.held| ==> Pending(s.held[i].payload))
    && (forall i :: 0 <= i < |s.dead| ==> Settled(s.dead[i]))
    && (forall i :: 0 <= i < |s.done| ==> Settled(s.done[i]))
    && (forall i, j :: 0 <= i < j < |s.held| ==> s.held[i].worker != s.held[j].worker)
  }

  function Sum(ps: seq<Payload>): int
  {
    if ps == [] then 0 else Sum(ps[..|ps| - 1]) + ps[|ps| - 1].maxAttempts - ps[|ps| - 1].attempts
  }

  /** Attempts still to be spent by jobs that are queued or in hand. */
  function Remaining(s: System): int
  {
    Sum(s.waiting) + Sum(Payloads(s.held))
  }

  lemma SumPush(ps: seq<Payload>, p: Payload)
    ensures Sum(ps + [p]) == Sum(ps) + p.maxAttempts - p.attempts
  {
    assert (ps + [p])[..|ps|] == ps;
  }

  lemma {:induction false} SumWithout(ps: seq<Payload>, k: nat)
    requires k < |ps|
    ensures Sum(ps) == Sum(Without(ps, k)) + ps[k].maxAttempts - ps[k].attempts
  {
    var front, last := ps[..|ps| - 1], ps[|ps| - 1];
    if k == |ps| - 1 {
      assert Without(ps, k) == front;
    } else {
      SumWithout(front, k);
      assert Without(ps, k) == Without(front, k) + [last];
      SumPush(Without(front, k), last);
    }
  }

  lemma {:induction false} SumNonNegative(ps: seq<Payload>)
    requires forall i :: 0 <= i < |ps| ==> ps[i].attempts <= ps[i].maxAttempts
    ensures Sum(ps) >= 0
  {
    if ps != [] {
      SumNonNegative(ps[..|ps| - 1]);
    }
  }

  lemma AttemptsStep(s: System, step: Step)
    requires Enabled(s, step) && AttemptsOk(s)
    ensures AttemptsOk(Next(s, step))
  {
    match step
    case Dispatch(_, _, _, _) =>
    case Pop(worker, queue, now) =>
      AttemptsPop(s, worker, FirstReady(s.waiting, queue, now));
    case Process(slot, o, now) =>
      AttemptsSettle(s.(held := Without(s.held, slot)), s.held[slot].payload, o, now);
  }

  lemma AttemptsPop(s: System, worker: nat, k: int)
    requires AttemptsOk(s) && k < |s.waiting| && forall i :: 0 <= i < |s.held| ==> s.held[i].worker != worker
    ensures k >= 0 ==>
              AttemptsOk(s.(waiting := Without(s.waiting, k), held := s.held + [Hand(worker, s.waiting[k])]))
  {
  }

  lemma AttemptsSettle(s: System, p: Payload, o: Outcome, now: int)
    requires AttemptsOk(s) && Pending(p)
    ensures AttemptsOk(Settle(s, p, o, now))
  {
  }

  /** What a step adds to the attempts still to be spent. */
  function Granted(step: Step): nat
  {
    if step.Dispatch? then NewPayload(step.id, step.queue, step.maxAttempts, step.at).maxAttempts else 0
  }

  lemma SumPop(s: System, k: nat, worker: nat)
    requires k < |s.waiting|
    ensures var t := s.(waiting := Without(s.waiting, k), held := s.held + [Hand(worker, s.waiting[k])]);
      Remaining(t) == Remaining(s)
  {
    var t := s.(waiting := Without(s.waiting, k), held := s.held + [Hand(worker, s.waiting[k])]);
    SumWithout(s.waiting, k);
    SumPush(Payloads(s.held), s.waiting[k]);
    assert Payloads(t.held) == Payloads(s.held) + [s.waiting[k]];
  }

  lemma SumUnhand(s: System, slot: nat)
    requires slot < |s.held|
    ensures var p := s.held[slot].payload;
      Remaining(s) == Remaining(s.(held := Without(s.held, slot))) + p.maxAttempts - p.attempts
  {
    SumWithout(Payloads(s.held), slot);
    assert Payloads(Without(s.held, slot)) == Without(Payloads(s.held), slot);
  }

  lemma SumSettle(s: System, p: Payload, o: Outcome, now: int)
    requires Pending(p)
    ensures Remaining(Settle(s, p, o, now)) <= Remaining(s) + p.maxAttempts - p.attempts - 1
  {
    var p' := Attempted(p, o);
    SumPush(s.waiting, p'.(availableAt := now + Backoff(p'.attempts)));
  }

  /** Every process call uses up at least one remaining attempt. */
  lemma RemainingStep(s: System, step: Step)
    requires Enabled(s, step) && AttemptsOk(s)
    ensures Remaining(Next(s, step)) <= Remaining(s) + Granted(step) - if step.Process? then 1 else 0
  {
    match step
    case Dispatch(id, queue, max, at) => SumPush(s.waiting, NewPayload(id, queue, max, at));
    case Pop(worker, queue, now) =>
      var k := FirstReady(s.waiting, queue, now);
      if k >= 0 {
        SumPop(s, k, worker);
      }
    case Process(slot, o, now) =>
      SumUnhand(s, slot);
      SumSettle(s.(held := Without(s.held, slot)), s.held[slot].payload, o, now);
  }

  function ProcessCalls(steps: seq<Step>): nat
  {
    if steps == [] then 0 else (if steps[0].Process? then 1 else 0) + ProcessCalls(steps[1..])
  }

  function TotalGranted(steps: seq<Step>): nat
  {
    if steps == [] then 0 else Granted(steps[0]) + TotalGranted(steps[1..])
  }

  ghost predicate QueueInvariant(s: System)
  {
    && Bag(Everywhere(s)) == multiset(s.issued)
    && (forall id :: multiset(s.issued)[id] <= 1)
    && AttemptsOk(s)
  }

  /**
   In every interleaving of dispatches and workers: each issued job is in exactly
   one place; queued and held jobs have attempts left; Handle ran at most
   MaxAttempts times for each; and process calls are bounded by what was granted.
   */
  lemma {:induction false} QueueRuns(s: System, steps: seq<Step>)
    requires QueueInvariant(s) && IsRun(s, steps)
    ensures QueueInvariant(Run(s, steps))
    ensures ProcessCalls(steps) + Remaining(Run(s, steps)) <= Remaining(s) + TotalGranted(steps)
    decreases |steps|
  {
    if steps != [] {
      ConservationStep(s, steps[0]);
      AttemptsStep(s, steps[0]);
      RemainingStep(s, steps[0]);
      QueueRuns(Next(s, steps[0]), steps[1..]);
    }
  }

  /** From an empty system: exactly one place for every issued job, and bounded work. */
  lemma EveryJobInOnePlace(steps: seq<Step>, id: nat)
    requires IsRun(EMPTY, steps)
    ensures var s := Run(EMPTY, steps);
      && Bag(Everywhere(s))[id] == (if id in s.issued then 1 else 0)
      && (forall i :: 0 <= i < |Everywhere(s)| ==> Everywhere(s)[i].handled <= Everywhere(s)[i].maxAttempts)
      && (forall i :: 0 <= i < |s.waiting| ==> s.waiting[i].attempts < s.waiting[i].maxAttempts)
      && ProcessCalls(steps) <= TotalGranted(steps)
  {
    var s := Run(EMPTY, steps);
    assert Everywhere(EMPTY) == [];
    QueueRuns(EMPTY, steps);
    SumNonNegative(s.waiting);
    SumNonNegative(Payloads(s.held));
  }

  // ------------------------------------------------------------- back-off

  lemma {:induction false} Pow2Grows(j: nat, k: nat)
    requires j <= k
    ensures Pow2(j) <= Pow2(k)
    decreases k
  {
    if j < k {
      Pow2Grows(j, k - 1);
    }
  }

  lemma Pow2At33()
    ensures Pow2(33) == 0x2_0000_0000
  {
    assert Pow2(8) == 256;
    Pow2Adds(8, 8);
    Pow2Adds(16, 16);
    Pow2Adds(32, 1);
  }

  lemma {:induction false} Pow2Adds(a: nat, b: nat)
    ensures Pow2(a + b) == Pow2(a) * Pow2(b)
  {
    if b > 0 {
      Pow2Adds(a, b - 1);
      assert Pow2(a + b) == 2 * Pow2(a + b - 1) == 2 * (Pow2(a) * Pow2(b - 1)) == Pow2(a) * Pow2(b);
    }
  }

  /** The back-off is 2^attempts seconds exactly as long as that fits: up to 33 attempts. */
  lemma BackoffIsExactUpTo33(attempts: nat)
    ensures Backoff(attempts) == Pow2(attempts) * SECOND <==> attempts <= 33
  {
    Pow2At33();
    if attempts <= 33 {
      Pow2Grows(attempts, 33);
    } else {
      assert Pow2(34) == 2 * Pow2(33);
      Pow2Grows(34, attempts);
    }
  }

  /** A release for a job of at most 34 attempts always lands at least two seconds ahead. */
  lemma ReleaseLandsInFuture(s: System, p: Payload, now: int)
    requires Pending(p) && p.maxAttempts <= 34 && p.attempts + 1 < p.maxAttempts
    ensures var waiting := Settle(s, p, Failure, now).waiting;
      |waiting| == |s.waiting| + 1 && waiting[|s.waiting|].availableAt >= now + 2 * SECOND
  {
    BackoffIsExactUpTo33(p.attempts + 1);
    Pow2Grows(1, p.attempts + 1);
  }

  /** Every delay a job can be given lies at least two seconds ahead exactly when it has at most 34 attempts. */
  lemma DelaysAreAheadExactly(max: nat)
    ensures (forall k: nat :: 1 <= k < max ==> Backoff(k) >= 2 * SECOND) <==> max <= 34
  {
    if max <= 34 {
      forall k: nat | 1 <= k < max
        ensures Backoff(k) >= 2 * SECOND
      {
        BackoffIsExactUpTo33(k);
        Pow2Grows(1, k);
      }
    } else {
      BackoffOverflowsAt34();
    }
  }

  /** One attempt more and the product overflows: the retry is due in the past. */
  lemma BackoffOverflowsAt34()
    ensures Backoff(34) < 0
  {
    Pow2At33();
    assert Pow2(34) == 2 * Pow2(33) == 0x4_0000_0000;
  }

  // ----------------------------------------------------- the memory driver

  /** One queue of the push-ordered list. */
  function Slice(ps: seq<Payload>, q: string): seq<Payload>
  {
    if ps == [] then [] else (if ps[0].queue == q then [ps[0]] else []) + Slice(ps[1..], q)
  }

  lemma {:induction false} SliceAppend(a: seq<Payload>, b: seq<Payload>, q: string)
    ensures Slice(a + b, q) == Slice(a, q) + Slice(b, q)
  {
    if a == [] {
      assert a + b == b;
    } else {
      var head := if a[0].queue == q then [a[0]] else [];
      assert (a + b)[0] == a[0] && (a + b)[1..] == a[1..] + b;
      SliceAppend(a[1..], b, q);
      calc {
        Slice(a + b, q);
        head + Slice(a[1..] + b, q);
        head + (Slice(a[1..], q) + Slice(b, q));
        head + Slice(a[1..], q) + Slice(b, q);
      }
    }
  }

  lemma {:induction false} SliceNotReady(ps: seq<Payload>, q: string, now: int)
    requires forall j :: 0 <= j < |ps| ==> !Ready(ps[j], q, now)
    ensures forall j :: 0 <= j < |Slice(ps, q)| ==> Slice(ps, q)[j].availableAt > now
  {
    if ps != [] {
      SliceNotReady(ps[1..], q, now);
      assert !Ready(ps[0], q, now);
    }
  }

  /** A queue around one of its payloads. */
  lemma SliceAround(ps: seq<Payload>, k: nat, q: string)
    requires k < |ps| && ps[k].queue == q
    ensures Slice(ps, q) == Slice(ps[..k], q) + [ps[k]] + Slice(ps[k + 1..], q)
    ensures Slice(Without(ps, k), q) == Slice(ps[..k], q) + Slice(ps[k + 1..], q)
  {
    var tail := [ps[k]] + ps[k + 1..];
    assert ps == ps[..k] + tail;
    SliceAppend(ps[..k], tail, q);
    assert tail[1..] == ps[k + 1..];
    SliceAppend(ps[..k], ps[k + 1..], q);
  }

  /** The oldest ready payload of the slice is the one FirstReady finds in the whole. */
  lemma SliceFirst(ps: seq<Payload>, q: string, now: int, i: nat)
    requires i <= |Slice(ps, q)|
    requires forall j :: 0 <= j < i ==> Slice(ps, q)[j].availableAt > now
    requires i < |Slice(ps, q)| ==> Slice(ps, q)[i].availableAt <= now
    ensures var k := FirstReady(ps, q, now);
      if i == |Slice(ps, q)| then k < 0
      else k >= 0 && ps[k] == Slice(ps, q)[i] && Slice(Without(ps, k), q) == Without(Slice(ps, q), i)
  {
    var k := FirstReady(ps, q, now);
    if k < 0 {
      SliceNotReady(ps, q, now);
    } else {
      SliceAround(ps, k, q);
      SliceNotReady(ps[..k], q, now);
      FirstDue(Slice(ps[..k], q), ps[k], Slice(ps[k + 1..], q), now, i);
    }
  }

  lemma FirstDue(before: seq<Payload>, p: Payload, after: seq<Payload>, now: int, i: nat)
    requires forall j :: 0 <= j < |before| ==> before[j].availableAt > now
    requires p.availableAt <= now
    requires var whole := before + [p] + after;
      i <= |whole| && (forall j :: 0 <= j < i ==> whole[j].availableAt > now) &&
      (i < |whole| ==> whole[i].availableAt <= now)
    ensures i == |before| && Without(before + [p] + after, i) == before + after
  {
    var whole := before + [p] + after;
    assert whole[|before|] == p;
    assert forall j :: 0 <= j < |before| ==> whole[j] == before[j];
  }

  /** Removing a payload of one queue leaves the others alone. */
  lemma SliceElsewhere(ps: seq<Payload>, k: nat, q: string)
    requires k < |ps| && ps[k].queue != q
    ensures Slice(Without(ps, k), q) == Slice(ps, q)
  {
    SliceAppend(ps[..k], ps[k + 1..], q);
    assert ps == ps[..k] + ([ps[k]] + ps[k + 1..]);
    SliceAppend(ps[..k], [ps[k]] + ps[k + 1..], q);
    assert ([ps[k]] + ps[k + 1..])[1..] == ps[k + 1..];
  }

  /** The in-process driver: a list per queue and the dead letters. */
  class Memory {
    var queues: map<string, seq<Payload>>
    var dead: seq<Payload>
    ghost var waiting: seq<Payload>

    function Items(q: string): seq<Payload>
      reads this
    {
      if q in queues then queues[q] else []
    }

    ghost predicate Valid()
      reads this
    {
      forall q :: Items(q) == Slice(waiting, q)
    }

    constructor ()
      ensures Valid() && waiting == [] && dead == []
    {
      queues, dead, waiting := map[], [], [];
    }

    method Push(p: Payload)
      requires Valid()
      modifies this
      ensures Valid() && waiting == old(waiting) + [p] && dead == old(dead)
    {
      queues := queues[p.queue := Items(p.queue) + [p]];
      waiting := waiting + [p];
      forall q
        ensures Items(q) == Slice(waiting, q)
      {
        SliceAppend(old(waiting), [p], q);
        assert Slice([p], q) == if p.queue == q then [p] else [];
      }
    }

    /** Removes the oldest payload of the queue that is due. */
    method Pop(q: string, now: int) returns (r: Option<Payload>)
      requires Valid()
      modifies this
      ensures Valid() && dead == old(dead)
      ensures var k := FirstReady(old(waiting), q, now);
        if k < 0 then r == None && waiting == old(waiting)
        else r == Some(old(waiting)[k]) && waiting == Without(old(waiting), k)
    {
      var items := Items(q);
      var i := 0;
      while i < |items|
        invariant 0 <= i <= |items|
        invariant forall j :: 0 <= j < i ==> items[j].availableAt > now
      {
        if items[i].availableAt <= now {
          SliceFirst(waiting, q, now, i);
          ghost var k := FirstReady(waiting, q, now);
          forall q' | q' != q
            ensures Slice(Without(waiting, k), q') == Slice(waiting, q')
          {
            SliceElsewhere(waiting, k, q');
          }
          queues := queues[q := Without(items, i)];
          waiting := Without(waiting, k);
          return Some(items[i]);
        }
        i := i + 1;
      }
      SliceFirst(waiting, q, now, i);
      return None;
    }

    method Dead(p: Payload)
      requires Valid()
      modifies this
      ensures Valid() && waiting == old(waiting) && dead == old(dead) + [p]
    {
      dead := dead + [p];
    }

    method Release(p: Payload, now: int, delay: int)
      requires Valid()
      modifies this
      ensures Valid() && waiting == old(waiting) + [p.(availableAt := now + delay)] && dead == old(dead)
    {
      Push(p.(availableAt := now + delay));
    }
  }

  /** What the driver and the finished jobs hold together, as a system with idle workers. */
  ghost function AsSystem(driver: Memory, done: seq<Payload>): System
    reads driver
  {
    System(driver.waiting, [], driver.dead, done, [])
  }

  method ProcessOne(driver: Memory, p: Payload, o: Outcome, now: int, done: seq<Payload>) returns (done': seq<Payload>)
    requires driver.Valid()
    modifies driver
    ensures driver.Valid()
    ensures AsSystem(driver, done') == Settle(old(AsSystem(driver, done)), p, o, now)
  {
    done' := done;
    var p' := p.(attempts := p.attempts + 1);
    if o == Undecodable {
      driver.Dead(p');
      return;
    }
    p' := p'.(handled := p'.handled + 1);
    if o == Failure {
      if p'.attempts >= p'.maxAttempts {
        driver.Dead(p');
        return;
      }
      driver.Release(p', now, Backoff(p'.attempts));
      return;
    }
    done' := done + [p'];
  }

  ghost predicate AllPending(ps: seq<Payload>)
  {
    forall i :: 0 <= i < |ps| ==> Pending(ps[i])
  }

  ghost predicate Drained(ps: seq<Payload>, q: string, now: int)
  {
    forall i :: 0 <= i < |ps| ==> !Ready(ps[i], q, now)
  }

  /**
   One worker's pass over its queues, with the clock frozen and handlers that
   dispatch nothing. It terminates, leaves no due job in any of them, and loses none.
   */
  method ProcessAll(driver: Memory, queues: seq<string>, now: int, handle: Payload -> Outcome)
    returns (done: seq<Payload>)
    requires driver.Valid() && AllPending(driver.waiting)
    modifies driver
    ensures driver.Valid() && AllPending(driver.waiting)
    ensures forall q :: q in queues ==> Drained(driver.waiting, q, now)
    ensures AllIds(driver, done) == old(AllIds(driver, []))
  {
    done := [];
    ghost var all := AllIds(driver, done);
    var i := 0;
    while i < |queues|
      invariant 0 <= i <= |queues|
      invariant driver.Valid() && AllPending(driver.waiting)
      invariant forall j :: 0 <= j < i ==> Drained(driver.waiting, queues[j], now)
      invariant AllIds(driver, done) == all
    {
      var more := true;
      while more
        invariant driver.Valid() && AllPending(driver.waiting)
        invariant forall j :: 0 <= j < i ==> queues[j] == queues[i] || Drained(driver.waiting, queues[j], now)
        invariant !more ==> Drained(driver.waiting, queues[i], now)
        invariant AllIds(driver, done) == all
        decreases Sum(driver.waiting), more
      {
        SumNonNegative(driver.waiting);
        more, done := ProcessNext(driver, queues[i], now, handle, done, queues[..i]);
      }
      i := i + 1;
    }
  }

  /** The IDs of all jobs that the driver and the finished jobs hold. */
  ghost function AllIds(driver: Memory, done: seq<Payload>): multiset<nat>
    reads driver
  {
    Bag(Everywhere(AsSystem(driver, done)))
  }

  /** Pop the next due job of a queue and process it, if there is one. */
  method ProcessNext(
    driver: Memory, q: string, now: int, handle: Payload -> Outcome, done: seq<Payload>, ghost drained: seq<string>)
    returns (found: bool, done': seq<Payload>)
    requires driver.Valid() && AllPending(driver.waiting)
    requires forall d :: d in drained ==> d == q || Drained(driver.waiting, d, now)
    modifies driver
    ensures driver.Valid() && AllPending(driver.waiting)
    ensures forall d :: d in drained ==> d == q || Drained(driver.waiting, d, now)
    ensures AllIds(driver, done') == old(AllIds(driver, done))
    ensures if found then Sum(driver.waiting) < old(Sum(driver.waiting))
            else driver.waiting == old(driver.waiting) && Drained(driver.waiting, q, now)
  {
    ghost var before := AsSystem(driver, done);
    var p := driver.Pop(q, now);
    if p == None {
      return false, done;
    }
    TurnKeeps(before, FirstReady(before.waiting, q, now), handle(p.value), now, drained);
    done' := ProcessOne(driver, p.value, handle(p.value), now, done);
    found := true;
  }

  /** One turn of the loop: no job is lost, and less work is left. */
  lemma TurnKeeps(s: System, k: nat, o: Outcome, now: int, drained: seq<string>)
    requires k < |s.waiting| && AllPending(s.waiting)
    requires forall q :: q in drained ==> q == s.waiting[k].queue || Drained(s.waiting, q, now)
    ensures var p := s.waiting[k]; var t := Settle(s.(waiting := Without(s.waiting, k)), p, o, now);
      && Bag(Everywhere(t)) == Bag(Everywhere(s))
      && AllPending(t.waiting)
      && (forall q :: q in drained ==> q == p.queue || Drained(t.waiting, q, now))
      && Sum(t.waiting) < Sum(s.waiting)
  {
    var popped := s.(waiting := Without(s.waiting, k));
    PopRemoves(s, k);
    SettleSpends(popped, s.waiting[k], o, now, drained);
    BagSettle(popped, s.waiting[k], o, now);
  }

  lemma PopRemoves(s: System, k: nat)
    requires k < |s.waiting|
    ensures var t := s.(waiting := Without(s.waiting, k));
      && Bag(Everywhere(s)) == Bag(Everywhere(t)) + multiset{s.waiting[k].id}
      && Sum(s.waiting) == Sum(t.waiting) + s.waiting[k].maxAttempts - s.waiting[k].attempts
      && (forall i :: 0 <= i < |t.waiting| ==> t.waiting[i] in s.waiting)
  {
    var t := s.(waiting := Without(s.waiting, k));
    BagEverywhere(s);
    BagEverywhere(t);
    BagWithout(s.waiting, k);
    SumWithout(s.waiting, k);
  }

  lemma SettleSpends(s: System, p: Payload, o: Outcome, now: int, drained: seq<string>)
    requires AllPending(s.waiting) && Pending(p)
    requires forall q :: q in drained ==> q == p.queue || Drained(s.waiting, q, now)
    ensures var t := Settle(s, p, o, now);
      && AllPending(t.waiting)
      && (forall q :: q in drained ==> q == p.queue || Drained(t.waiting, q, now))
      && Sum(t.waiting) < Sum(s.waiting) + p.maxAttempts - p.attempts
  {
    var p' := Attempted(p, o);
    SumPush(s.waiting, p'.(availableAt := now + Backoff(p'.attempts)));
  }
}
