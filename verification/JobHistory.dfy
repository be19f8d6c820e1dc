/**
 What has become of every job, told from its history alone: when it was
 dispatched, taken and tried, and with which outcome. The system of JobQueue keeps
 payloads in places; here the place and every field follow from what happened.
 */
module JobHistory {
  import opened JobQueue
  import opened Options
  import opened Seqs

  datatype Happening =
    | Sent(id: nat, queue: string, maxAttempts: int, at: int)
    | Taken(id: nat)
    | Tried(id: nat, outcome: Outcome, now: int)

  type History = seq<Happening>

  datatype Place = Waiting | InHand | Dead | Done

  /** What a step does to a job, if it does anything to one. */
  function Happens(s: System, step: Step): History
    requires Enabled(s, step)
  {
    match step
    case Dispatch(id, queue, max, at) => [Sent(id, queue, max, at)]
    case Pop(_, queue, now) =>
      var k := FirstReady(s.waiting, queue, now); if k < 0 then [] else [Taken(s.waiting[k].id)]
    case Process(slot, o, now) => [Tried(s.held[slot].payload.id, o, now)]
  }

  ghost function HistoryOf(s: System, steps: seq<Step>): History
    requires IsRun(s, steps)
    decreases |steps|
  {
    if steps == [] then [] else Happens(s, steps[0]) + HistoryOf(Next(s, steps[0]), steps[1..])
  }

  // ------------------------------------------------------ reading a history

  /** The latest thing that happened to a job. */
  function Latest(h: History, id: nat): Option<Happening>
  {
    if h == [] then None
    else if h[|h| - 1].id == id then Some(h[|h| - 1])
    else Latest(h[..|h| - 1], id)
  }

  function Dispatched(h: History, id: nat): Option<Happening>
  {
    if h == [] then None
    else if h[|h| - 1].id == id && h[|h| - 1].Sent? then Some(h[|h| - 1])
    else Dispatched(h[..|h| - 1], id)
  }

  /** How often process was called for a job. */
  function Tries(h: History, id: nat): nat
  {
    if h == [] then 0
    else Tries(h[..|h| - 1], id) + if h[|h| - 1].id == id && h[|h| - 1].Tried? then 1 else 0
  }

  /** How often its Handle was called: a payload that cannot be decoded never reaches it. */
  function Handled(h: History, id: nat): nat
  {
    if h == [] then 0
    else
      var x := h[|h| - 1];
      Handled(h[..|h| - 1], id) + if x.id == id && x.Tried? && x.outcome != Undecodable then 1 else 0
  }

  /** When it may next be taken: the time it was sent for, or the back-off after its last failure. */
  function DueAt(h: History, id: nat): int
  {
    if h == [] then 0
    else
      var x := h[|h| - 1];
      if x.id == id && x.Sent? then x.at
      else if x.id == id && x.Tried? then x.now + Backoff(Tries(h, id))
      else DueAt(h[..|h| - 1], id)
  }

  /** MaxAttempts as dispatched, 3 when it is not positive. */
  function Attempts(h: History, id: nat): int
  {
    match Dispatched(h, id)
    case None => 0
    case Some(x) => if x.Sent? && x.maxAttempts > 0 then x.maxAttempts else 3
  }

  /**
   Where a job must be: done after a success, dead when it could not be decoded or
   when its last attempt failed, in hand once taken, and otherwise waiting.
   */
  function PlaceOf(h: History, id: nat): Option<Place>
  {
    match Latest(h, id)
    case None => None
    case Some(Sent(_, _, _, _)) => Some(Waiting)
    case Some(Taken(_)) => Some(InHand)
    case Some(Tried(_, Success, _)) => Some(Done)
    case Some(Tried(_, Undecodable, _)) => Some(Dead)
    case Some(Tried(_, Failure, _)) => Some(if Tries(h, id) == Attempts(h, id) then Dead else Waiting)
  }

  // ------------------------------------------------------------ the records

  /** The payload is as its history has it, and in its place. */
  ghost predicate AsTold(h: History, p: Payload, place: Place)
  {
    && PlaceOf(h, p.id) == Some(place)
    && Dispatched(h, p.id).Some? && Dispatched(h, p.id).value.Sent? && p.queue == Dispatched(h, p.id).value.queue
    && p.maxAttempts == Attempts(h, p.id)
    && p.attempts == Tries(h, p.id)
    && p.handled == Handled(h, p.id)
    && (place == Waiting || place == InHand ==> p.availableAt == DueAt(h, p.id))
  }

  ghost predicate AllTold(h: History, ps: seq<Payload>, place: Place)
  {
    forall i :: 0 <= i < |ps| ==> AsTold(h, ps[i], place)
  }

  ghost predicate Told(h: History, s: System)
  {
    && AllTold(h, s.waiting, Waiting) && AllTold(h, Payloads(s.held), InHand)
    && AllTold(h, s.dead, Dead) && AllTold(h, s.done, Done)
  }

  /** Nothing has happened to a job that was not dispatched. */
  ghost predicate OnlyIssued(h: History, s: System)
  {
    forall id :: id !in s.issued ==> Unheard(h, id)
  }

  ghost predicate Unheard(h: History, id: nat)
  {
    Latest(h, id) == None && Dispatched(h, id) == None && Tries(h, id) == 0 && Handled(h, id) == 0
  }

  ghost predicate HistoryInvariant(h: History, s: System)
  {
    QueueInvariant(s) && Told(h, s) && OnlyIssued(h, s)
  }

  /** What happens to one job leaves the others' histories alone. */
  lemma OthersKeep(h: History, x: Happening, id: nat)
    requires x.id != id
    ensures Latest(h + [x], id) == Latest(h, id) && Dispatched(h + [x], id) == Dispatched(h, id)
    ensures Tries(h + [x], id) == Tries(h, id) && Handled(h + [x], id) == Handled(h, id)
    ensures DueAt(h + [x], id) == DueAt(h, id)
  {
    FrontOfSnoc(h, x);
  }

  lemma JobSent(h: History, x: Happening)
    requires x.Sent? && Unheard(h, x.id)
    ensures AsTold(h + [x], NewPayload(x.id, x.queue, x.maxAttempts, x.at), Waiting)
  {
    FrontOfSnoc(h, x);
  }

  lemma JobTaken(h: History, p: Payload)
    requires AsTold(h, p, Waiting)
    ensures AsTold(h + [Taken(p.id)], p, InHand)
  {
    FrontOfSnoc(h, Taken(p.id));
  }

  /** The attempt in hand, once tried. */
  lemma JobTried(h: History, p: Payload, o: Outcome, now: int)
    requires AsTold(h, p, InHand) && Pending(p)
    ensures var h', p' := h + [Tried(p.id, o, now)], Attempted(p, o);
      && (o == Success ==> AsTold(h', p', Done))
      && (o == Undecodable || (o == Failure && p'.attempts >= p'.maxAttempts) ==> AsTold(h', p', Dead))
      && (o == Failure && p'.attempts < p'.maxAttempts ==>
           AsTold(h', p'.(availableAt := now + Backoff(p'.attempts)), Waiting))
  {
    FrontOfSnoc(h, Tried(p.id, o, now));
  }

  ghost predicate Absent(ps: seq<Payload>, id: nat)
  {
    forall i :: 0 <= i < |ps| ==> ps[i].id != id
  }

  lemma OthersStayTold(h: History, x: Happening, ps: seq<Payload>, place: Place)
    requires AllTold(h, ps, place) && Absent(ps, x.id)
    ensures AllTold(h + [x], ps, place)
  {
    forall i | 0 <= i < |ps|
      ensures AsTold(h + [x], ps[i], place)
    {
      OthersKeep(h, x, ps[i].id);
    }
  }

  lemma OneMoreTold(h: History, ps: seq<Payload>, p: Payload, place: Place)
    requires AllTold(h, ps, place) && AsTold(h, p, place)
    ensures AllTold(h, ps + [p], place)
  {
  }

  lemma OneLessTold(h: History, ps: seq<Payload>, k: nat, place: Place)
    requires AllTold(h, ps, place) && k < |ps|
    ensures AllTold(h, Without(ps, k), place)
  {
  }

  lemma BagHolds(ps: seq<Payload>, id: nat)
    ensures Bag(ps)[id] == 0 <==> Absent(ps, id)
  {
    var ids := Ids(ps);
    assert id in Bag(ps) <==> id in ids;
    if id in ids {
      var i :| 0 <= i < |ids| && ids[i] == id;
      assert ps[i].id == id;
    }
    if i :| 0 <= i < |ps| && ps[i].id == id {
      assert ids[i] == id;
    }
  }

  /** A job that is in none of the places. */
  ghost predicate Nowhere(s: System, id: nat)
  {
    Absent(s.waiting, id) && Absent(Payloads(s.held), id) && Absent(s.dead, id) && Absent(s.done, id)
  }

  lemma NowhereInBag(s: System, id: nat)
    ensures Bag(Everywhere(s))[id] == 0 <==> Nowhere(s, id)
  {
    BagEverywhere(s);
    BagHolds(s.waiting, id);
    BagHolds(Payloads(s.held), id);
    BagHolds(s.dead, id);
    BagHolds(s.done, id);
  }

  lemma OthersToldOf(h: History, x: Happening, s: System)
    requires Told(h, s) && Nowhere(s, x.id)
    ensures Told(h + [x], s)
  {
    OthersStayTold(h, x, s.waiting, Waiting);
    OthersStayTold(h, x, Payloads(s.held), InHand);
    OthersStayTold(h, x, s.dead, Dead);
    OthersStayTold(h, x, s.done, Done);
  }

  lemma ToldDispatch(h: History, s: System, x: Happening)
    requires HistoryInvariant(h, s) && x.Sent? && x.id !in s.issued
    ensures Told(h + [x], s.(waiting := s.waiting + [NewPayload(x.id, x.queue, x.maxAttempts, x.at)]))
  {
    NowhereInBag(s, x.id);
    OthersToldOf(h, x, s);
    JobSent(h, x);
    OneMoreTold(h + [x], s.waiting, NewPayload(x.id, x.queue, x.maxAttempts, x.at), Waiting);
  }

  /** A job taken out of the system is nowhere else in it. */
  lemma TakenOut(s: System, rest: System, id: nat)
    requires QueueInvariant(s) && Bag(Everywhere(s)) == Bag(Everywhere(rest)) + multiset{id}
    ensures Nowhere(rest, id)
  {
    NowhereInBag(rest, id);
    assert multiset(s.issued)[id] <= 1;
  }

  lemma ToldPop(h: History, s: System, k: nat, worker: nat)
    requires HistoryInvariant(h, s) && k < |s.waiting|
    ensures Told(h + [Taken(s.waiting[k].id)],
                 s.(waiting := Without(s.waiting, k), held := s.held + [Hand(worker, s.waiting[k])]))
  {
    var p, popped := s.waiting[k], s.(waiting := Without(s.waiting, k));
    PopRemoves(s, k);
    TakenOut(s, popped, p.id);
    OneLessTold(h, s.waiting, k, Waiting);
    OthersToldOf(h, Taken(p.id), popped);
    JobTaken(h, p);
    OneMoreTold(h + [Taken(p.id)], Payloads(s.held), p, InHand);
    assert Payloads(s.held + [Hand(worker, p)]) == Payloads(s.held) + [p];
  }

  lemma ToldProcess(h: History, s: System, slot: nat, o: Outcome, now: int)
    requires HistoryInvariant(h, s) && slot < |s.held|
    ensures var p := s.held[slot].payload;
      Told(h + [Tried(p.id, o, now)], Settle(s.(held := Without(s.held, slot)), p, o, now))
  {
    var p, rest := s.held[slot].payload, s.(held := Without(s.held, slot));
    BagUnhand(s, slot);
    TakenOut(s, rest, p.id);
    assert Payloads(rest.held) == Without(Payloads(s.held), slot);
    OneLessTold(h, Payloads(s.held), slot, InHand);
    OthersToldOf(h, Tried(p.id, o, now), rest);
    assert Payloads(s.held)[slot] == p;
    ToldSettle(h, rest, p, o, now);
  }

  lemma ToldSettle(h: History, s: System, p: Payload, o: Outcome, now: int)
    requires AsTold(h, p, InHand) && Pending(p) && Told(h + [Tried(p.id, o, now)], s)
    ensures Told(h + [Tried(p.id, o, now)], Settle(s, p, o, now))
  {
    var h', p' := h + [Tried(p.id, o, now)], Attempted(p, o);
    JobTried(h, p, o, now);
    if o == Success {
      OneMoreTold(h', s.done, p', Done);
    } else if o == Undecodable || p'.attempts >= p'.maxAttempts {
      OneMoreTold(h', s.dead, p', Dead);
    } else {
      OneMoreTold(h', s.waiting, p'.(availableAt := now + Backoff(p'.attempts)), Waiting);
    }
  }

  lemma ToldStep(h: History, s: System, step: Step)
    requires HistoryInvariant(h, s) && Enabled(s, step)
    ensures Told(h + Happens(s, step), Next(s, step))
  {
    match step
    case Dispatch(id, queue, max, at) => ToldDispatch(h, s, Sent(id, queue, max, at));
    case Pop(worker, queue, now) =>
      var k := FirstReady(s.waiting, queue, now);
      if k >= 0 {
        ToldPop(h, s, k, worker);
      } else {
        assert h + [] == h;
      }
    case Process(slot, o, now) => ToldProcess(h, s, slot, o, now);
  }

  /** Whatever happens, happens to a job that is dispatched by then. */
  lemma HappensToIssued(h: History, s: System, step: Step)
    requires HistoryInvariant(h, s) && Enabled(s, step)
    ensures |Happens(s, step)| <= 1
    ensures forall x :: x in Happens(s, step) ==> x.id in Next(s, step).issued
  {
    match step
    case Dispatch(_, _, _, _) =>
    case Pop(_, queue, now) =>
      var k := FirstReady(s.waiting, queue, now);
      if k >= 0 {
        NowhereInBag(s, s.waiting[k].id);
      }
    case Process(slot, _, _) =>
      assert Payloads(s.held)[slot] == s.held[slot].payload;
      NowhereInBag(s, s.held[slot].payload.id);
  }

  lemma OnlyIssuedStep(h: History, s: System, step: Step)
    requires HistoryInvariant(h, s) && Enabled(s, step)
    ensures OnlyIssued(h + Happens(s, step), Next(s, step))
  {
    HappensToIssued(h, s, step);
    var more := Happens(s, step);
    if more == [] {
      assert h + more == h;
    } else {
      assert more == [more[0]];
      forall id | id !in Next(s, step).issued
        ensures Unheard(h + more, id)
      {
        OthersKeep(h, more[0], id);
      }
    }
  }

  lemma {:induction false} HistoryRun(h: History, s: System, steps: seq<Step>)
    requires HistoryInvariant(h, s) && IsRun(s, steps)
    ensures HistoryInvariant(h + HistoryOf(s, steps), Run(s, steps))
    decreases |steps|
  {
    if steps == [] {
      assert h + [] == h;
    } else {
      var more := Happens(s, steps[0]);
      ConservationStep(s, steps[0]);
      AttemptsStep(s, steps[0]);
      ToldStep(h, s, steps[0]);
      OnlyIssuedStep(h, s, steps[0]);
      HistoryRun(h + more, Next(s, steps[0]), steps[1..]);
      Assoc(h, more, HistoryOf(Next(s, steps[0]), steps[1..]));
    }
  }

  ghost predicate Holds(ps: seq<Payload>, id: nat)
  {
    !Absent(ps, id)
  }

  lemma HoldsAsTold(h: History, ps: seq<Payload>, place: Place, id: nat)
    requires AllTold(h, ps, place) && Holds(ps, id)
    ensures PlaceOf(h, id) == Some(place)
  {
    var i :| 0 <= i < |ps| && ps[i].id == id;
    assert AsTold(h, ps[i], place);
  }

  lemma SomewhereOrUnheard(h: History, s: System, id: nat)
    requires HistoryInvariant(h, s)
    ensures Nowhere(s, id) ==> PlaceOf(h, id) == None
  {
    NowhereInBag(s, id);
    if Nowhere(s, id) {
      assert id !in multiset(s.issued);
      assert id !in s.issued && Unheard(h, id);
    }
  }

  lemma PlacesAreTold(h: History, s: System, id: nat)
    requires HistoryInvariant(h, s)
    ensures Holds(s.done, id) <==> PlaceOf(h, id) == Some(Done)
    ensures Holds(s.dead, id) <==> PlaceOf(h, id) == Some(Dead)
    ensures Holds(Payloads(s.held), id) <==> PlaceOf(h, id) == Some(InHand)
    ensures Holds(s.waiting, id) <==> PlaceOf(h, id) == Some(Waiting)
  {
    SomewhereOrUnheard(h, s, id);
    if Holds(s.done, id) {
      HoldsAsTold(h, s.done, Done, id);
    }
    if Holds(s.dead, id) {
      HoldsAsTold(h, s.dead, Dead, id);
    }
    if Holds(Payloads(s.held), id) {
      HoldsAsTold(h, Payloads(s.held), InHand, id);
    }
    if Holds(s.waiting, id) {
      HoldsAsTold(h, s.waiting, Waiting, id);
    }
  }

  /**
   In every interleaving of dispatches and workers, each job is where its history
   puts it, and nowhere else: done exactly when its last try succeeded, dead exactly
   when that could not be decoded or was its last attempt and failed, in hand exactly
   when it was taken since, and waiting otherwise. Its queue, its attempts, the calls
   of Handle and the time it is due are those of its history too.
   */
  lemma EveryJobIsInItsPlace(steps: seq<Step>, id: nat)
    requires IsRun(EMPTY, steps)
    ensures var s, h := Run(EMPTY, steps), HistoryOf(EMPTY, steps);
      && (Holds(s.done, id) <==> PlaceOf(h, id) == Some(Done))
      && (Holds(s.dead, id) <==> PlaceOf(h, id) == Some(Dead))
      && (Holds(Payloads(s.held), id) <==> PlaceOf(h, id) == Some(InHand))
      && (Holds(s.waiting, id) <==> PlaceOf(h, id) == Some(Waiting))
      && Told(h, s)
  {
    var s, h := Run(EMPTY, steps), HistoryOf(EMPTY, steps);
    assert Everywhere(EMPTY) == [];
    HistoryRun([], EMPTY, steps);
    assert [] + h == h;
    PlacesAreTold(h, s, id);
  }
}
