/**
 One node of Oni Memory as a value: its clock counter, its vector and its key
 table, with the two ways a key changes (a local write and a received one).
 Deletes, expiry and snapshots are not part of this model.
 */
module Replicas {
  import opened Clocks
  import Int64

  datatype Value = Nil | Number(n: int) | Other(text: string)

  /** One write, as stored in the table and as carried by a "set" message. */
  datatype Write = Write(key: string, value: Value, stamp: Stamp)

  datatype Replica = Replica(id: string, counter: nat, clocks: Vector, data: map<string, Write>)

  function Fresh(id: string): Replica
  {
    Replica(id, 0, map[id := 0], map[])
  }

  /** The stamp the next local write will carry. */
  function NextStamp(r: Replica): Stamp
  {
    Stamp(r.id, r.counter + 1, r.clocks[r.id := r.counter + 1])
  }

  function NextWrite(r: Replica, key: string, value: Value): Write
  {
    Write(key, value, NextStamp(r))
  }

  /** A local write: tick, then overwrite the key without looking at it. */
  function PutLocal(r: Replica, key: string, value: Value): Replica
  {
    Replica(r.id, r.counter + 1, NextStamp(r).vector, r.data[key := NextWrite(r, key, value)])
  }

  /** The last-write-wins rule: keep the stored write only if it is After the received one. */
  ghost predicate Keeps(data: map<string, Write>, w: Write)
  {
    w.key in data && After(data[w.key].stamp, w.stamp)
  }

  ghost function Resolve(data: map<string, Write>, w: Write): map<string, Write>
  {
    if Keeps(data, w) then data else data[w.key := w]
  }

  /** A received write: merge clocks, then resolve. */
  ghost function Receive(r: Replica, w: Write): Replica
  {
    Replica(r.id, r.counter, Join(r.clocks, w.stamp.vector), Resolve(r.data, w))
  }

  function NumberIn(data: map<string, Write>, key: string): int
  {
    if key in data && data[key].value.Number? then data[key].value.n else 0
  }

  function ValueIn(data: map<string, Write>, key: string): Value
  {
    if key in data then data[key].value else Nil
  }

  // ------------------------------------------- what a sequence of calls leaves

  /** A call on one node's store; Hear is a write received from another node. */
  datatype Call =
    | SetTo(key: string, value: Value)
    | Incr(key: string, n: int)
    | Swap(key: string, expected: Value, newValue: Value)
    | Hear(key: string, value: Value, stamp: Stamp)

  ghost function Called(r: Replica, c: Call): Replica
  {
    match c
    case SetTo(key, value) => PutLocal(r, key, value)
    case Incr(key, n) => PutLocal(r, key, Number(Int64.Wrap(NumberIn(r.data, key) + n)))
    case Swap(key, expected, newValue) =>
      if ValueIn(r.data, key) == expected then PutLocal(r, key, newValue) else r
    case Hear(key, value, stamp) => Receive(r, Write(key, value, stamp))
  }

  ghost function CalledAll(r: Replica, cs: seq<Call>): Replica
    decreases |cs|
  {
    if cs == [] then r else CalledAll(Called(r, cs[0]), cs[1..])
  }

  /** A call touches no other key than its own. */
  lemma OtherKeysStay(r: Replica, c: Call, key: string)
    requires c.key != key
    ensures key in Called(r, c).data <==> key in r.data
    ensures key in r.data ==> Called(r, c).data[key] == r.data[key]
  {
  }

  /** The increments of one key: how many, and what they add up to exactly. */
  function Increments(cs: seq<Call>, key: string): nat
  {
    if cs == [] then 0
    else (if cs[0].key == key && cs[0].Incr? then 1 else 0) + Increments(cs[1..], key)
  }

  function Added(cs: seq<Call>, key: string): int
  {
    if cs == [] then 0 else (if cs[0].key == key && cs[0].Incr? then cs[0].n else 0) + Added(cs[1..], key)
  }

  lemma {:induction false} NothingAdded(cs: seq<Call>, key: string)
    requires Increments(cs, key) == 0
    ensures Added(cs, key) == 0
  {
    if cs != [] {
      NothingAdded(cs[1..], key);
    }
  }

  ghost predicate OnlyIncrements(cs: seq<Call>, key: string)
  {
    forall i :: 0 <= i < |cs| && cs[i].key == key ==> cs[i].Incr?
  }

  lemma WrapTwice(x: int, n: int)
    ensures Int64.Wrap(Int64.Wrap(x) + n) == Int64.Wrap(x + n)
  {
  }

  /** The key holds this number, or nothing that counts as one, which is zero. */
  predicate Counts(data: map<string, Write>, key: string, a: int)
  {
    if key in data && data[key].value.Number? then data[key].value == Number(a) else a == 0
  }

  /** The key holds this number after the increments, or just what it held when there were none. */
  ghost predicate AddedUp(r: Replica, key: string, a: int, cs: seq<Call>, after: map<string, Write>)
  {
    if Increments(cs, key) > 0 then key in after && after[key].value == Number(Int64.Wrap(a + Added(cs, key)))
    else (key in after <==> key in r.data) && (key in after ==> after[key] == r.data[key])
  }

  lemma FirstIncrement(r: Replica, key: string, a: int, n: int, rest: seq<Call>, after: map<string, Write>)
    requires Counts(r.data, key, a)
    requires AddedUp(Called(r, Incr(key, n)), key, Int64.Wrap(a + n), rest, after)
    ensures key in after && after[key].value == Number(Int64.Wrap(a + n + Added(rest, key)))
  {
    WrapTwice(a + n, Added(rest, key));
    if Increments(rest, key) == 0 {
      NothingAdded(rest, key);
    }
  }

  /**
   A counter adds up: from a number (from zero when the key is fresh or holds no
   number), and however calls on other keys come in between, after at least one
   increment it holds the 64-bit sum of all of them.
   */
  lemma {:induction false} CounterAddsUp(r: Replica, key: string, a: int, cs: seq<Call>)
    requires Counts(r.data, key, a) && OnlyIncrements(cs, key)
    ensures AddedUp(r, key, a, cs, CalledAll(r, cs).data)
    decreases |cs|
  {
    if cs != [] {
      var c, next, rest := cs[0], Called(r, cs[0]), cs[1..];
      if c.key == key {
        CounterAddsUp(next, key, Int64.Wrap(a + c.n), rest);
        FirstIncrement(r, key, a, c.n, rest, CalledAll(r, cs).data);
      } else {
        OtherKeysStay(r, c, key);
        CounterAddsUp(next, key, a, rest);
      }
    }
  }

  /** The calls on a key all ask to swap the same value for another one. */
  ghost predicate OnlySwaps(cs: seq<Call>, key: string, expected: Value)
  {
    forall i :: 0 <= i < |cs| && cs[i].key == key ==>
      cs[i].Swap? && cs[i].expected == expected && cs[i].newValue != expected
  }

  /** What the first call on the key asks for, or else what it held. */
  function FirstAsked(cs: seq<Call>, key: string, held: Value): Value
  {
    if cs == [] then held
    else if cs[0].key == key && cs[0].Swap? then cs[0].newValue
    else FirstAsked(cs[1..], key, held)
  }

  /** Of any number of swaps that expect the same value exactly the first one wins, if the key holds that value. */
  lemma {:induction false} FirstSwapWins(r: Replica, key: string, expected: Value, cs: seq<Call>)
    requires OnlySwaps(cs, key, expected)
    ensures var held := if key in r.data then r.data[key].value else Nil;
      var after := CalledAll(r, cs).data;
      (if key in after then after[key].value else Nil) ==
      if held == expected then FirstAsked(cs, key, held) else held
    decreases |cs|
  {
    if cs != [] {
      if cs[0].key != key {
        OtherKeysStay(r, cs[0], key);
      }
      FirstSwapWins(Called(r, cs[0]), key, expected, cs[1..]);
    }
  }

  /** The store object. Set gossips its write; IncrBy and CompareAndSwap do not. */
  class Store {
    const clock: VectorClock
    var data: map<string, Write>

    constructor (nodeID: string)
      ensures fresh(clock) && State() == Fresh(nodeID)
    {
      clock := new VectorClock(nodeID);
      data := map[];
    }

    ghost function State(): Replica
      reads this, clock
    {
      Replica(clock.node, clock.localTS, clock.clocks, data)
    }

    method Set(key: string, value: Value) returns (gossiped: Write)
      modifies this, clock
      ensures State() == PutLocal(old(State()), key, value) == Called(old(State()), SetTo(key, value))
      ensures gossiped == NextWrite(old(State()), key, value)
    {
      var cv := clock.Tick();
      gossiped := Write(key, value, cv);
      data := data[key := gossiped];
    }

    method IncrBy(key: string, n: int) returns (next: int)
      modifies this, clock
      ensures next == if key in old(data) && old(data)[key].value.Number?
                      then Int64.Wrap(old(data)[key].value.n + n) else Int64.Wrap(n)
      ensures State() == PutLocal(old(State()), key, Number(next)) == Called(old(State()), Incr(key, n))
    {
      var current := 0;
      if key in data && data[key].value.Number? {
        current := data[key].value.n;
      }
      next := Int64.Wrap(current + n);
      var cv := clock.Tick();
      data := data[key := Write(key, Number(next), cv)];
    }

    method CompareAndSwap(key: string, expected: Value, newValue: Value) returns (swapped: bool)
      modifies this, clock
      ensures swapped <==> expected == if key in old(data) then old(data)[key].value else Nil
      ensures State() == (if swapped then PutLocal(old(State()), key, newValue) else old(State()))
                      == Called(old(State()), Swap(key, expected, newValue))
    {
      var currentVal := Nil;
      if key in data {
        currentVal := data[key].value;
      }
      if currentVal != expected {
        return false;
      }
      var cv := clock.Tick();
      data := data[key := Write(key, newValue, cv)];
      return true;
    }

    method ApplyRemoteSet(w: Write)
      modifies this, clock
      ensures State() == Receive(old(State()), w) == Called(old(State()), Hear(w.key, w.value, w.stamp))
    {
      clock.Merge(w.stamp);
      var wins := false;
      if w.key in data {
        wins := CompareAfter(data[w.key].stamp, w.stamp);
      }
      if !wins {
        data := data[w.key := w];
      }
    }
  }
}

/**
 A cluster of nodes that write, gossip and receive. A message may be delivered
 in any order, any number of times, or never.
 */
module Cluster {
  import opened Seqs
  import opened Clocks
  import opened Replicas

  /** One step. Deliver(n, src) hands node n the message that step src gossiped. */
  datatype Step =
    | Put(node: string, key: string, value: Value, gossip: bool)
    | Deliver(node: string, src: nat)

  type Run = seq<Step>

  /** Every node's state, and for each past step the write it made or delivered. */
  datatype State = State(nodes: map<string, Replica>, log: seq<Write>)

  predicate Enabled(members: set<string>, run: Run, step: Step)
  {
    && step.node in members
    && (step.Deliver? ==> step.src < |run| && run[step.src].Put? && run[step.src].gossip)
  }

  predicate IsRun(members: set<string>, run: Run)
  {
    forall j :: 0 <= j < |run| ==> Enabled(members, run[..j], run[j])
  }

  ghost function After1(s: State, step: Step): State
    requires step.node in s.nodes
    requires step.Deliver? ==> step.src < |s.log|
  {
    var r := s.nodes[step.node];
    match step
    case Put(n, key, value, _) =>
      State(s.nodes[n := PutLocal(r, key, value)], s.log + [NextWrite(r, key, value)])
    case Deliver(n, src) =>
      State(s.nodes[n := Receive(r, s.log[src])], s.log + [s.log[src]])
  }

  ghost function Exec(members: set<string>, run: Run): (s: State)
    requires IsRun(members, run)
    ensures s.nodes.Keys == members && |s.log| == |run|
  {
    if run == [] then State(map n | n in members :: Fresh(n), [])
    else
      var front := run[..|run| - 1];
      assert IsRun(members, front) by { FrontIsRun(members, run); }
      assert Enabled(members, run[..|run| - 1], run[|run| - 1]);
      After1(Exec(members, front), run[|run| - 1])
  }

  lemma FrontIsRun(members: set<string>, run: Run)
    requires run != [] && IsRun(members, run)
    ensures IsRun(members, run[..|run| - 1])
  {
    var front := run[..|run| - 1];
    forall j | 0 <= j < |front|
      ensures Enabled(members, front[..j], front[j])
    {
      assert front[..j] == run[..j];
    }
  }

  // ---------------------------------------------------------------- lanes

  ghost function Counter(s: State, n: string): nat
  {
    if n in s.nodes then s.nodes[n].counter else 0
  }

  ghost predicate Bounded(s: State, v: Vector)
  {
    forall n :: Lane(v, n) <= Counter(s, n)
  }

  ghost predicate NodeLanes(s: State, n: string)
    requires n in s.nodes
  {
    var r := s.nodes[n];
    r.id == n && Lane(r.clocks, n) == r.counter && Bounded(s, r.clocks)
  }

  /** The write of step i carries its maker's node ID, its own lane as TS, and only known lanes. */
  ghost predicate StampOk(run: Run, s: State, i: nat)
    requires i < |run| == |s.log|
  {
    var w := s.log[i];
    && Bounded(s, w.stamp.vector)
    && w.stamp.ts == Lane(w.stamp.vector, w.stamp.node) > 0
    && match run[i]
       case Put(n, key, value, _) => w.stamp.node == n && w.key == key && w.value == value
       case Deliver(_, src) => src < i && run[src].Put? && w == s.log[src]
  }

  /** One node's stamps rise along the run. */
  ghost predicate Rising(run: Run, s: State)
    requires |run| == |s.log|
  {
    forall i, j :: 0 <= i < j < |run| && run[i].Put? && run[j].Put? && run[i].node == run[j].node ==>
      s.log[i].stamp.ts < s.log[j].stamp.ts
  }

  /** What every reachable state keeps about lanes and stamps. */
  ghost predicate LaneInvariant(run: Run, s: State)
  {
    && |s.log| == |run|
    && (forall n :: n in s.nodes ==> NodeLanes(s, n))
    && (forall i :: 0 <= i < |run| ==> StampOk(run, s, i))
    && Rising(run, s)
  }

  lemma {:induction false} LanesHold(members: set<string>, run: Run)
    requires IsRun(members, run)
    ensures LaneInvariant(run, Exec(members, run))
  {
    if run != [] {
      var front, step := run[..|run| - 1], run[|run| - 1];
      FrontIsRun(members, run);
      LanesHold(members, front);
      assert Enabled(members, run[..|run| - 1], run[|run| - 1]);
      LaneStep(members, front, Exec(members, front), step);
      FrontAndLast(run, |run| - 1);
    }
  }

  lemma LaneStep(members: set<string>, run: Run, s: State, step: Step)
    requires LaneInvariant(run, s)
    requires s.nodes.Keys == members && Enabled(members, run, step)
    ensures LaneInvariant(run + [step], After1(s, step))
  {
    var run', t := run + [step], After1(s, step);
    forall n | n in t.nodes
      ensures NodeLanes(t, n)
    {
      NodeLanesStep(run, s, step, n);
    }
    forall i: nat | i < |run'|
      ensures StampOk(run', t, i)
    {
      StampStep(run, s, step, i);
    }
    assert NodeLanes(s, step.node);
    forall i, j | 0 <= i < j < |run'| && run'[i].Put? && run'[j].Put? && run'[i].node == run'[j].node
      ensures t.log[i].stamp.ts < t.log[j].stamp.ts
    {
      assert StampOk(run, s, i);
    }
  }

  lemma NodeLanesStep(run: Run, s: State, step: Step, n: string)
    requires LaneInvariant(run, s)
    requires n in s.nodes && Enabled(s.nodes.Keys, run, step)
    ensures NodeLanes(After1(s, step), n)
  {
    assert NodeLanes(s, n);
    CountersGrow(s, step);
    if step.Deliver? {
      assert StampOk(run, s, step.src);
    }
  }

  lemma StampStep(run: Run, s: State, step: Step, i: nat)
    requires LaneInvariant(run, s) && Enabled(s.nodes.Keys, run, step) && i <= |run|
    ensures StampOk(run + [step], After1(s, step), i)
  {
    CountersGrow(s, step);
    if i < |run| {
      assert StampOk(run, s, i);
    } else if step.Deliver? {
      assert StampOk(run, s, step.src);
    } else {
      assert NodeLanes(s, step.node);
    }
  }

  lemma CountersGrow(s: State, step: Step)
    requires step.node in s.nodes
    requires step.Deliver? ==> step.src < |s.log|
    ensures forall n :: Counter(s, n) <= Counter(After1(s, step), n)
  {
  }

  lemma ClockOfNodeGrows(run: Run, s: State, step: Step, n: string)
    requires LaneInvariant(run, s)
    requires n in s.nodes && Enabled(s.nodes.Keys, run, step)
    ensures Leq(s.nodes[n].clocks, After1(s, step).nodes[n].clocks)
    ensures n == step.node ==> Leq(After1(s, step).log[|run|].stamp.vector, After1(s, step).nodes[n].clocks)
  {
    assert NodeLanes(s, step.node);
  }

  /** No node's lane ever decreases: a node's vector only grows along a run. */
  lemma {:induction false} LanesNeverDecrease(members: set<string>, run: Run, k: nat, n: string)
    requires IsRun(members, run) && k <= |run| && n in members
    ensures IsRun(members, run[..k])
    ensures Leq(Exec(members, run[..k]).nodes[n].clocks, Exec(members, run).nodes[n].clocks)
  {
    if k == |run| {
      assert run[..k] == run;
    } else {
      var front, step := run[..|run| - 1], run[|run| - 1];
      FrontIsRun(members, run);
      LanesNeverDecrease(members, front, k, n);
      assert front[..k] == run[..k];
      assert Enabled(members, run[..|run| - 1], run[|run| - 1]);
      LanesHold(members, front);
      ClockOfNodeGrows(front, Exec(members, front), step, n);
    }
  }

  /** A node ID and a TS name one write. */
  lemma StampsIdentifyWrites(members: set<string>, run: Run, i: nat, j: nat)
    requires IsRun(members, run) && i < |run| && j < |run| && run[i].Put? && run[j].Put?
    ensures var log := Exec(members, run).log;
      log[i].stamp.node == log[j].stamp.node && log[i].stamp.ts == log[j].stamp.ts ==> i == j
  {
    LanesHold(members, run);
    var s := Exec(members, run);
    assert StampOk(run, s, i) && StampOk(run, s, j);
  }

  // ------------------------------------------------------------ causality

  /** Step k directly precedes step j: same node, or j delivers the message of k. */
  predicate Link(run: Run, k: nat, j: nat)
    requires k < |run| && j < |run|
  {
    k < j && (run[k].node == run[j].node || (run[j].Deliver? && run[j].src == k))
  }

  /** The reflexive and transitive closure of Link, with no mention of clocks. */
  ghost predicate Reaches(run: Run, i: nat, j: nat)
    requires i < |run| && j < |run|
    decreases j
  {
    i == j || exists k: nat :: k < j && Link(run, k, j) && Reaches(run, i, k)
  }

  ghost predicate HappenedBefore(run: Run, i: nat, j: nat)
    requires i < |run| && j < |run|
  {
    i != j && Reaches(run, i, j)
  }

  /** Some step of node n is at or after step i in the causal order. */
  ghost predicate Knows(run: Run, n: string, i: nat)
    requires i < |run|
  {
    exists k: nat :: k < |run| && run[k].node == n && Reaches(run, i, k)
  }

  lemma {:induction false} ReachesInOrder(run: Run, i: nat, j: nat)
    requires i < |run| && j < |run| && Reaches(run, i, j)
    ensures i <= j
    decreases j
  {
    if i != j {
      var k: nat :| k < j && Link(run, k, j) && Reaches(run, i, k);
      ReachesInOrder(run, i, k);
    }
  }

  lemma {:induction false} ReachesInPrefix(run: Run, step: Step, i: nat, j: nat)
    requires i < |run| && j < |run|
    ensures Reaches(run + [step], i, j) <==> Reaches(run, i, j)
    decreases j
  {
    forall k: nat | k < j
      ensures Link(run + [step], k, j) <==> Link(run, k, j)
      ensures Reaches(run + [step], i, k) <==> Reaches(run, i, k)
    {
      ReachesInPrefix(run, step, i, k);
    }
  }

  /** What the newest step reaches: its node's past and, for a delivery, the message's past. */
  lemma ReachesLast(run: Run, step: Step, i: nat)
    requires i < |run|
    requires step.Deliver? ==> step.src < |run|
    ensures Reaches(run + [step], i, |run|) <==>
            Knows(run, step.node, i) || (step.Deliver? && Reaches(run, i, step.src))
  {
    var run' := run + [step];
    forall k: nat | k < |run|
      ensures Reaches(run', i, k) <==> Reaches(run, i, k)
      ensures Link(run', k, |run|) <==> run[k].node == step.node || (step.Deliver? && step.src == k)
    {
      ReachesInPrefix(run, step, i, k);
    }
  }

  lemma KnowsNext(run: Run, step: Step, n: string, i: nat)
    requires i < |run|
    requires step.Deliver? ==> step.src < |run|
    ensures Knows(run + [step], n, i) <==>
            Knows(run, n, i) || (n == step.node && step.Deliver? && Reaches(run, i, step.src))
  {
    var run' := run + [step];
    ReachesLast(run, step, i);
    forall k: nat | k < |run|
      ensures Reaches(run', i, k) <==> Reaches(run, i, k)
    {
      ReachesInPrefix(run, step, i, k);
    }
    if Knows(run, n, i) {
      var k: nat :| k < |run| && run[k].node == n && Reaches(run, i, k);
      assert run'[k].node == n && Reaches(run', i, k);
    }
    if n == step.node && step.Deliver? && Reaches(run, i, step.src) {
      assert run'[|run|].node == n && Reaches(run', i, |run|);
    }
  }

  /** A fresh step is known to its own node only, and reaches nothing older. */
  lemma KnowsFresh(run: Run, step: Step, n: string)
    ensures Knows(run + [step], n, |run|) <==> n == step.node
    ensures forall j: nat :: j < |run| ==> !Reaches(run + [step], |run|, j)
  {
    var run' := run + [step];
    forall j: nat | j < |run|
      ensures !Reaches(run', |run|, j)
    {
      if Reaches(run', |run|, j) {
        ReachesInOrder(run', |run|, j);
      }
    }
    assert run'[|run|].node == step.node && Reaches(run', |run|, |run|);
  }

  /** A vector v covers write i when its lane for i's node has reached i's TS. */
  ghost predicate Covers(run: Run, s: State, v: Vector, i: nat)
    requires i < |run| == |s.log|
  {
    s.log[i].stamp.ts <= Lane(v, run[i].node)
  }

  /** Vectors say exactly what has been heard of. */
  ghost predicate CausalInvariant(run: Run, s: State)
    requires |run| == |s.log|
  {
    && (forall n, i: nat :: n in s.nodes && i < |run| && run[i].Put? ==>
      (Covers(run, s, s.nodes[n].clocks, i) <==> Knows(run, n, i)))
    && (forall i: nat, j: nat :: i < |run| && j < |run| && run[i].Put? && run[j].Put? ==>
      (Covers(run, s, s.log[j].stamp.vector, i) <==> Reaches(run, i, j)))
  }

  lemma {:induction false} CausalityHolds(members: set<string>, run: Run)
    requires IsRun(members, run)
    ensures CausalInvariant(run, Exec(members, run))
  {
    if run != [] {
      var front, step := run[..|run| - 1], run[|run| - 1];
      FrontIsRun(members, run);
      CausalityHolds(members, front);
      LanesHold(members, front);
      assert Enabled(members, run[..|run| - 1], run[|run| - 1]);
      CausalStepNodes(members, front, Exec(members, front), step);
      CausalStepWrites(members, front, Exec(members, front), step);
      FrontAndLast(run, |run| - 1);
    }
  }

  lemma CausalStepNodes(members: set<string>, run: Run, s: State, step: Step)
    requires LaneInvariant(run, s) && CausalInvariant(run, s)
    requires s.nodes.Keys == members && Enabled(members, run, step)
    ensures var run', t := run + [step], After1(s, step);
      forall n, i: nat :: n in t.nodes && i < |run'| && run'[i].Put? ==>
        (Covers(run', t, t.nodes[n].clocks, i) <==> Knows(run', n, i))
  {
    var run', t := run + [step], After1(s, step);
    forall n, i: nat | n in t.nodes && i < |run'| && run'[i].Put?
      ensures Covers(run', t, t.nodes[n].clocks, i) <==> Knows(run', n, i)
    {
      assert NodeLanes(s, n) && NodeLanes(s, step.node);
      if i < |run| {
        assert StampOk(run, s, i);
        KnowsNext(run, step, n, i);
        assert Covers(run, s, s.nodes[n].clocks, i) <==> Knows(run, n, i);
        if n == step.node == run[i].node {
          assert Reaches(run, i, i);
          assert Knows(run, n, i);
        }
      } else {
        KnowsFresh(run, step, n);
      }
    }
  }

  lemma CausalStepWrites(members: set<string>, run: Run, s: State, step: Step)
    requires LaneInvariant(run, s) && CausalInvariant(run, s)
    requires s.nodes.Keys == members && Enabled(members, run, step)
    ensures var run', t := run + [step], After1(s, step);
      forall i: nat, j: nat :: i < |run'| && j < |run'| && run'[i].Put? && run'[j].Put? ==>
        (Covers(run', t, t.log[j].stamp.vector, i) <==> Reaches(run', i, j))
  {
    var run', t := run + [step], After1(s, step);
    forall i: nat, j: nat | i < |run'| && j < |run'| && run'[i].Put? && run'[j].Put?
      ensures Covers(run', t, t.log[j].stamp.vector, i) <==> Reaches(run', i, j)
    {
      assert NodeLanes(s, step.node);
      if i < |run| {
        assert StampOk(run, s, i);
        if j < |run| {
          ReachesInPrefix(run, step, i, j);
          assert Covers(run, s, s.log[j].stamp.vector, i) <==> Reaches(run, i, j);
        } else {
          ReachesLast(run, step, i);
          assert Covers(run, s, s.nodes[step.node].clocks, i) <==> Knows(run, step.node, i);
          if step.node == run[i].node {
            assert Reaches(run, i, i);
            assert Knows(run, step.node, i);
          }
        }
      } else if j < |run| {
        KnowsFresh(run, step, step.node);
        assert StampOk(run, s, j);
      }
    }
  }

  /** Every lane value a node holds is the TS of some write. */
  ghost predicate Realised(run: Run, s: State, n: string, t: nat)
    requires |run| == |s.log|
  {
    exists i: nat :: i < |run| && run[i].Put? && run[i].node == n && s.log[i].stamp.ts == t
  }

  lemma {:induction false} LanesRealised(members: set<string>, run: Run, n: string, t: nat)
    requires IsRun(members, run)
    requires 0 < t <= Counter(Exec(members, run), n)
    ensures Realised(run, Exec(members, run), n, t)
  {
    if run != [] {
      var front, step := run[..|run| - 1], run[|run| - 1];
      FrontIsRun(members, run);
      assert Enabled(members, run[..|run| - 1], run[|run| - 1]);
      var s, s' := Exec(members, front), Exec(members, run);
      LanesHold(members, front);
      if t <= Counter(s, n) {
        LanesRealised(members, front, n, t);
        var i: nat :| i < |front| && front[i].Put? && front[i].node == n && s.log[i].stamp.ts == t;
        assert run[i] == front[i] && s'.log[i] == s.log[i];
      } else {
        assert NodeLanes(s, step.node);
        assert s'.log[|front|].stamp.ts == t && run[|front|].node == n;
      }
    }
  }

  /**
   The vector clock theorem: one write's vector dominates another's exactly when
   the other happened before it, through program order and deliveries.
   */
  lemma DominanceIsCausality(members: set<string>, run: Run, i: nat, j: nat)
    requires IsRun(members, run) && i < |run| && j < |run| && run[i].Put? && run[j].Put?
    ensures var log := Exec(members, run).log;
      Dominates(log[j].stamp.vector, log[i].stamp.vector) <==> HappenedBefore(run, i, j)
  {
    var s := Exec(members, run);
    var vi, vj := s.log[i].stamp.vector, s.log[j].stamp.vector;
    LanesHold(members, run);
    CausalityHolds(members, run);
    assert StampOk(run, s, i) && StampOk(run, s, j);
    assert Covers(run, s, vj, i) <==> Reaches(run, i, j);
    assert Covers(run, s, vi, j) <==> Reaches(run, j, i);
    if HappenedBefore(run, i, j) {
      forall n
        ensures Lane(vi, n) <= Lane(vj, n)
      {
        if Lane(vi, n) > 0 {
          LanesRealised(members, run, n, Lane(vi, n));
          var p: nat :| p < |run| && run[p].Put? && run[p].node == n && s.log[p].stamp.ts == Lane(vi, n);
          assert Covers(run, s, vi, p);
          ReachesTransitive(run, p, i, j);
          assert Covers(run, s, vj, p);
        }
      }
      if Leq(vj, vi) {
        assert Covers(run, s, vi, j);
        ReachesInOrder(run, i, j);
        ReachesInOrder(run, j, i);
      }
    }
  }

  lemma {:induction false} ReachesTransitive(run: Run, i: nat, j: nat, k: nat)
    requires i < |run| && j < |run| && k < |run|
    requires Reaches(run, i, j) && Reaches(run, j, k)
    ensures Reaches(run, i, k)
    decreases k
  {
    if j != k {
      var m: nat :| m < k && Link(run, m, k) && Reaches(run, j, m);
      ReachesTransitive(run, i, j, m);
    }
  }
}
