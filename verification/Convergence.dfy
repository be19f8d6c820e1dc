/**
 Last-write-wins convergence. The order After is not transitive, so the claim
 that every node settles on one winner holds exactly when some write is After
 all the others.
 */
module Convergence {
  import opened Text
  import opened Seqs
  import opened Clocks
  import opened Replicas
  import opened Cluster

  // ------------------------------------------- one key, any delivery order

  /** The table after resolving a sequence of received writes, oldest first. */
  ghost function ResolveAll(ws: seq<Write>): map<string, Write>
  {
    if ws == [] then map[] else Resolve(ResolveAll(ws[..|ws| - 1]), ws[|ws| - 1])
  }

  ghost function Elements<T>(ws: seq<T>): set<T>
  {
    set w | w in ws
  }

  /** Writes to one key, no two of them with the same node ID and TS. */
  ghost predicate Rivals(all: set<Write>, key: string)
  {
    && (forall w :: w in all ==> w.key == key)
    && (forall v, w :: v in all && w in all && v != w ==> v.stamp.node != w.stamp.node || v.stamp.ts != w.stamp.ts)
  }

  /** w is After every other write of the set. */
  ghost predicate Maximum(all: set<Write>, w: Write)
  {
    w in all && forall v :: v in all && v != w ==> After(w.stamp, v.stamp)
  }

  lemma {:induction false} SettlesInside(ws: seq<Write>, key: string)
    requires ws != [] && forall w :: w in ws ==> w.key == key
    ensures key in ResolveAll(ws) && ResolveAll(ws)[key] in ws
  {
    var front := ws[..|ws| - 1];
    assert ws == front + [ws[|ws| - 1]];
    if front != [] {
      SettlesInside(front, key);
    }
  }

  lemma {:induction false} MaximumSettles(ws: seq<Write>, key: string, w: Write)
    requires forall v :: v in ws ==> v.key == key
    requires w in ws && forall v :: v in ws && v != w ==> After(w.stamp, v.stamp)
    ensures key in ResolveAll(ws) && ResolveAll(ws)[key] == w
  {
    var front, last := ws[..|ws| - 1], ws[|ws| - 1];
    assert ws == front + [last];
    assert last in ws && forall v :: v in front ==> v in ws;
    if w in front {
      MaximumSettles(front, key, w);
    } else if front != [] {
      SettlesInside(front, key);
      AfterAsymmetric(w.stamp, ResolveAll(front)[key].stamp);
    }
  }

  lemma {:induction false} Enumerate<T>(all: set<T>) returns (ws: seq<T>)
    ensures Elements(ws) == all
    decreases |all|
  {
    if all == {} {
      ws := [];
    } else {
      var w :| w in all;
      ws := Enumerate(all - {w});
      assert Elements(ws + [w]) == Elements(ws) + {w};
      ws := ws + [w];
    }
  }

  /** Every order of delivery, with any duplicates, ends with w in the table. */
  ghost predicate AlwaysSettlesOn(all: set<Write>, key: string, w: Write)
  {
    forall ws :: Elements(ws) == all ==> key in ResolveAll(ws) && ResolveAll(ws)[key] == w
  }

  /** The exact condition for convergence: the set has a write that is After all others. */
  lemma ConvergesExactlyOnMaximum(all: set<Write>, key: string, w: Write)
    requires all != {} && Rivals(all, key)
    ensures AlwaysSettlesOn(all, key, w) <==> Maximum(all, w)
  {
    if Maximum(all, w) {
      forall ws | Elements(ws) == all
        ensures key in ResolveAll(ws) && ResolveAll(ws)[key] == w
      {
        assert forall v :: v in ws ==> v in Elements(ws);
        assert w in Elements(ws);
        MaximumSettles(ws, key, w);
      }
    }
    if AlwaysSettlesOn(all, key, w) {
      var ws := Enumerate(all);
      assert forall v :: v in ws <==> v in Elements(ws);
      assert ws != [];
      SettlesInside(ws, key);
      forall v | v in all && v != w
        ensures After(w.stamp, v.stamp)
      {
        assert Elements(ws + [v]) == all;
        assert (ws + [v])[..|ws|] == ws;
        assert v.key == key;
      }
    }
  }

  /** Writes no two of which are causally ordered always have a maximum. */
  lemma {:induction false} ConcurrentWritesHaveMaximum(all: set<Write>, key: string) returns (w: Write)
    requires all != {} && Rivals(all, key)
    requires forall v, w :: v in all && w in all && v != w ==> Concurrent(v.stamp.vector, w.stamp.vector)
    ensures Maximum(all, w)
    decreases |all|
  {
    var x :| x in all;
    var rest := all - {x};
    if rest == {} {
      w := x;
      assert all == {x};
    } else {
      var best := ConcurrentWritesHaveMaximum(rest, key);
      w := if TieBreak(best.stamp, x.stamp) then best else x;
      forall v | v in all && v != w
        ensures After(w.stamp, v.stamp)
      {
        LessTotal(best.stamp.node, x.stamp.node);
        if v != x && v != best {
          assert After(best.stamp, v.stamp);
          if w.stamp.ts == best.stamp.ts == v.stamp.ts && w == x {
            LessTransitive(v.stamp.node, best.stamp.node, w.stamp.node);
          }
        }
      }
    }
  }

  /** Of all the writes this one has the greatest tick, and among those the greatest node ID. */
  ghost predicate Newest(all: set<Write>, w: Write)
  {
    w in all && forall v :: v in all && v != w ==>
      v.stamp.ts < w.stamp.ts || (v.stamp.ts == w.stamp.ts && Less(v.stamp.node, w.stamp.node))
  }

  /** Among concurrent writes the newest is the one that wins, and no other. */
  lemma MaximumIsNewest(all: set<Write>, w: Write)
    requires forall x, y :: x in all && y in all && x != y ==> Concurrent(x.stamp.vector, y.stamp.vector)
    ensures Maximum(all, w) <==> Newest(all, w)
  {
    forall v | v in all && v != w && w in all
      ensures After(w.stamp, v.stamp) <==>
              v.stamp.ts < w.stamp.ts || (v.stamp.ts == w.stamp.ts && Less(v.stamp.node, w.stamp.node))
    {
      assert Concurrent(v.stamp.vector, w.stamp.vector);
    }
  }

  // ----------------------------------------------------------- whole runs

  /** Node n made write i itself or received its message. */
  ghost predicate Heard(run: Run, n: string, i: nat)
  {
    exists k: nat :: k < |run| && run[k].node == n && (k == i || (run[k].Deliver? && run[k].src == i))
  }

  /** A stored write is one the node heard of, and its vector is within the node's own. */
  ghost predicate StoredOk(run: Run, s: State, n: string, key: string)
    requires |run| == |s.log| && n in s.nodes && key in s.nodes[n].data
  {
    var w := s.nodes[n].data[key];
    && w.key == key
    && Leq(w.stamp.vector, s.nodes[n].clocks)
    && exists i: nat :: i < |run| && run[i].Put? && Heard(run, n, i) && s.log[i] == w
  }

  ghost predicate StoreInvariant(run: Run, s: State)
    requires |run| == |s.log|
  {
    forall n, key :: n in s.nodes && key in s.nodes[n].data ==> StoredOk(run, s, n, key)
  }

  lemma HeardNext(run: Run, step: Step, n: string, i: nat)
    ensures Heard(run + [step], n, i) <==>
      Heard(run, n, i) || (step.node == n && (i == |run| || (step.Deliver? && step.src == i)))
  {
    var run' := run + [step];
    if Heard(run, n, i) {
      var k: nat :| k < |run| && run[k].node == n && (k == i || (run[k].Deliver? && run[k].src == i));
      assert run'[k] == run[k];
    }
    assert run'[|run|] == step;
  }

  lemma HeardIsPast(run: Run, s: State, n: string, i: nat)
    requires LaneInvariant(run, s) && Heard(run, n, i)
    ensures i < |run|
  {
    var k: nat :| k < |run| && run[k].node == n && (k == i || (run[k].Deliver? && run[k].src == i));
    assert StampOk(run, s, k);
  }

  lemma {:induction false} StoresHold(members: set<string>, run: Run)
    requires IsRun(members, run)
    ensures StoreInvariant(run, Exec(members, run))
  {
    if run != [] {
      var front, step := run[..|run| - 1], run[|run| - 1];
      FrontIsRun(members, run);
      StoresHold(members, front);
      LanesHold(members, front);
      assert Enabled(members, run[..|run| - 1], run[|run| - 1]);
      var s, t := Exec(members, front), Exec(members, run);
      FrontAndLast(run, |run| - 1);
      forall n, key | n in t.nodes && key in t.nodes[n].data
        ensures StoredOk(run, t, n, key)
      {
        StoreStep(members, front, s, step, n, key);
      }
    }
  }

  lemma StoreStep(members: set<string>, run: Run, s: State, step: Step, n: string, key: string)
    requires LaneInvariant(run, s) && StoreInvariant(run, s)
    requires s.nodes.Keys == members && Enabled(members, run, step)
    requires n in members && key in After1(s, step).nodes[n].data
    ensures StoredOk(run + [step], After1(s, step), n, key)
  {
    if key in s.nodes[n].data && s.nodes[n].data[key] == After1(s, step).nodes[n].data[key] {
      assert StoredOk(run, s, n, key);
      StoredStays(run, s, step, n, key);
    } else {
      StoredNow(run, s, step, n, key);
    }
  }

  lemma StoredStays(run: Run, s: State, step: Step, n: string, key: string)
    requires LaneInvariant(run, s) && n in s.nodes && key in s.nodes[n].data && StoredOk(run, s, n, key)
    requires Enabled(s.nodes.Keys, run, step)
    requires var t := After1(s, step); key in t.nodes[n].data && t.nodes[n].data[key] == s.nodes[n].data[key]
    ensures StoredOk(run + [step], After1(s, step), n, key)
  {
    var i: nat :| i < |run| && run[i].Put? && Heard(run, n, i) && s.log[i] == s.nodes[n].data[key];
    HeardNext(run, step, n, i);
    ClockOfNodeGrows(run, s, step, n);
    assert (run + [step])[i].Put? && After1(s, step).log[i] == s.log[i];
  }

  lemma StoredNow(run: Run, s: State, step: Step, n: string, key: string)
    requires LaneInvariant(run, s) && n in s.nodes && Enabled(s.nodes.Keys, run, step)
    requires var t := After1(s, step);
      key in t.nodes[n].data && !(key in s.nodes[n].data && s.nodes[n].data[key] == t.nodes[n].data[key])
    ensures StoredOk(run + [step], After1(s, step), n, key)
  {
    var t := After1(s, step);
    var i := if step.Deliver? then step.src else |run|;
    assert step.Deliver? ==> StampOk(run, s, step.src);
    HeardNext(run, step, n, i);
    assert (run + [step])[i].Put? && t.log[i] == t.nodes[n].data[key];
  }

  /** So the lanes of stored clocks, too, are at most the counters of their nodes. */
  lemma StoredLanesHold(members: set<string>, run: Run, n: string, key: string, m: string)
    requires IsRun(members, run) && n in members && m in members
    requires key in Exec(members, run).nodes[n].data
    ensures var s := Exec(members, run); Lane(s.nodes[n].data[key].stamp.vector, m) <= s.nodes[m].counter
  {
    var s := Exec(members, run);
    LanesHold(members, run);
    StoresHold(members, run);
    assert StoredOk(run, s, n, key) && NodeLanes(s, n);
    assert Lane(s.nodes[n].data[key].stamp.vector, m) <= Lane(s.nodes[n].clocks, m) <= Counter(s, m);
  }

  /** The next local stamp dominates whatever the node has stored. */
  lemma LocalStampDominates(run: Run, s: State, n: string, key: string)
    requires LaneInvariant(run, s) && StoreInvariant(run, s)
    requires n in s.nodes && key in s.nodes[n].data
    ensures Dominates(NextStamp(s.nodes[n]).vector, s.nodes[n].data[key].stamp.vector)
  {
    var r := s.nodes[n];
    assert NodeLanes(s, n) && StoredOk(run, s, n, key);
    assert Lane(r.data[key].stamp.vector, n) <= r.counter < Lane(NextStamp(r).vector, n);
  }

  /**
   In every reachable state the unconditional overwrite of a local write agrees
   with the last-write-wins rule: the new stamp is After whatever it replaces.
   */
  lemma OverwriteAgreesWithLww(members: set<string>, run: Run, n: string, key: string, value: Value)
    requires IsRun(members, run) && n in members
    ensures var r := Exec(members, run).nodes[n];
      && PutLocal(r, key, value).data == Resolve(r.data, NextWrite(r, key, value))
      && (key in r.data ==> After(NextStamp(r), r.data[key].stamp))
  {
    LanesHold(members, run);
    StoresHold(members, run);
    var s := Exec(members, run);
    var r := s.nodes[n];
    if key in r.data {
      LocalStampDominates(run, s, n, key);
      AfterAsymmetric(NextStamp(r), r.data[key].stamp);
    }
  }

  /** Write w is After every other write to its key that node n has heard of. */
  ghost predicate Leads(run: Run, s: State, n: string, w: nat)
    requires |run| == |s.log|
  {
    && w < |run| && run[w].Put? && Heard(run, n, w)
    && forall i: nat :: i < |run| && run[i].Put? && run[i].key == run[w].key && Heard(run, n, i) && i != w ==>
         After(s.log[w].stamp, s.log[i].stamp)
  }

  ghost predicate Holds(s: State, n: string, w: nat)
    requires w < |s.log| && n in s.nodes
  {
    var key := s.log[w].key;
    key in s.nodes[n].data && s.nodes[n].data[key] == s.log[w]
  }

  /**
   Convergence over whole runs: a node that heard of a set of writes to a key,
   in any order and with duplicates, holds the one that is After all others.
   */
  lemma {:induction false} HoldsTheLeader(members: set<string>, run: Run, n: string, w: nat)
    requires IsRun(members, run) && n in members
    requires Leads(run, Exec(members, run), n, w)
    ensures Holds(Exec(members, run), n, w)
  {
    var front, step := run[..|run| - 1], run[|run| - 1];
    FrontIsRun(members, run);
    assert Enabled(members, run[..|run| - 1], run[|run| - 1]);
    var s := Exec(members, front);
    assert front + [step] == run;
    LanesHold(members, front);
    StoresHold(members, front);
    if w < |front| && Heard(front, n, w) {
      LeadsBefore(front, s, step, n, w);
      HoldsTheLeader(members, front, n, w);
      LeaderStays(front, s, step, n, w);
    } else {
      LeaderArrives(front, s, step, n, w);
    }
  }

  lemma LeadsBefore(run: Run, s: State, step: Step, n: string, w: nat)
    requires |run| == |s.log| && Enabled(s.nodes.Keys, run, step)
    requires Leads(run + [step], After1(s, step), n, w) && w < |run| && Heard(run, n, w)
    ensures Leads(run, s, n, w)
  {
    var run', t := run + [step], After1(s, step);
    forall i: nat | i < |run| && run[i].Put? && run[i].key == run[w].key && Heard(run, n, i) && i != w
      ensures After(s.log[w].stamp, s.log[i].stamp)
    {
      HeardNext(run, step, n, i);
      assert run'[i] == run[i] && t.log[i] == s.log[i];
    }
  }

  lemma LeaderStays(run: Run, s: State, step: Step, n: string, w: nat)
    requires LaneInvariant(run, s) && StoreInvariant(run, s)
    requires n in s.nodes && Enabled(s.nodes.Keys, run, step)
    requires Leads(run + [step], After1(s, step), n, w) && w < |run| && Holds(s, n, w)
    ensures Holds(After1(s, step), n, w)
  {
    assert StampOk(run, s, w) && (run + [step])[w] == run[w];
    if step.node == n {
      if step.Put? {
        OverwriteByLeaderOnly(run, s, step, n, w);
      } else {
        assert StampOk(run, s, step.src);
        HeardNext(run, step, n, step.src);
        KeepsTheLeader(s.log[w], s.log[step.src], s.nodes[n].data);
      }
    }
  }

  /** A local write is After what it overwrites, so a leader is not overwritten. */
  lemma OverwriteByLeaderOnly(run: Run, s: State, step: Step, n: string, w: nat)
    requires LaneInvariant(run, s) && StoreInvariant(run, s)
    requires n in s.nodes && step.Put? && step.node == n
    requires Leads(run + [step], After1(s, step), n, w) && w < |run| && Holds(s, n, w)
    requires s.log[w].key == run[w].key
    ensures step.key != s.log[w].key
  {
    var run', t := run + [step], After1(s, step);
    assert run'[|run|] == step && run'[w] == run[w];
    HeardNext(run, step, n, |run|);
    if step.key == s.log[w].key {
      LocalStampDominates(run, s, n, step.key);
      AfterAsymmetric(t.log[w].stamp, t.log[|run|].stamp);
    }
  }

  lemma KeepsTheLeader(w: Write, x: Write, data: map<string, Write>)
    requires w.key in data && data[w.key] == w
    requires x.key == w.key && x != w ==> After(w.stamp, x.stamp)
    ensures w.key in Resolve(data, x) && Resolve(data, x)[w.key] == w
  {
  }

  lemma LeaderArrives(run: Run, s: State, step: Step, n: string, w: nat)
    requires LaneInvariant(run, s) && StoreInvariant(run, s)
    requires n in s.nodes && Enabled(s.nodes.Keys, run, step)
    requires Leads(run + [step], After1(s, step), n, w) && !(w < |run| && Heard(run, n, w))
    ensures Holds(After1(s, step), n, w)
  {
    var run', t := run + [step], After1(s, step);
    HeardNext(run, step, n, w);
    if w == |run| {
      if Heard(run, n, w) {
        HeardIsPast(run, s, n, w);
      }
      assert run'[w] == step;
    } else {
      assert StampOk(run, s, w);
      var key := s.log[w].key;
      if key in s.nodes[n].data {
        assert StoredOk(run, s, n, key);
        var i: nat :| i < |run| && run[i].Put? && Heard(run, n, i) && s.log[i] == s.nodes[n].data[key];
        HeardNext(run, step, n, i);
        assert StampOk(run, s, i);
        assert run'[i] == run[i];
        assert After(t.log[w].stamp, t.log[i].stamp);
        AfterAsymmetric(t.log[w].stamp, t.log[i].stamp);
      }
    }
  }

  /** Nodes that heard of the same writes to a key, one of them After the rest, agree on it. */
  lemma NodesAgree(members: set<string>, run: Run, m: string, n: string, w: nat)
    requires IsRun(members, run) && m in members && n in members
    requires Leads(run, Exec(members, run), m, w)
    requires forall i: nat :: i < |run| && run[i].Put? && run[i].key == run[w].key ==>
               (Heard(run, m, i) <==> Heard(run, n, i))
    ensures var s := Exec(members, run); var key := run[w].key;
      key in s.nodes[m].data && key in s.nodes[n].data && s.nodes[m].data[key] == s.nodes[n].data[key]
  {
    LanesHold(members, run);
    assert StampOk(run, Exec(members, run), w);
    HoldsTheLeader(members, run, m, w);
    HoldsTheLeader(members, run, n, w);
  }

  /** A write that every other heard write happened before leads, so it is held. */
  lemma CausallyLastIsHeld(members: set<string>, run: Run, n: string, w: nat)
    requires IsRun(members, run) && n in members
    requires w < |run| && run[w].Put? && Heard(run, n, w)
    requires forall i: nat :: i < |run| && run[i].Put? && run[i].key == run[w].key && Heard(run, n, i) && i != w ==>
               HappenedBefore(run, i, w)
    ensures Holds(Exec(members, run), n, w)
  {
    var s := Exec(members, run);
    forall i: nat | i < |run| && run[i].Put? && run[i].key == run[w].key && Heard(run, n, i) && i != w
      ensures After(s.log[w].stamp, s.log[i].stamp)
    {
      DominanceIsCausality(members, run, i, w);
    }
    HoldsTheLeader(members, run, n, w);
  }

  /** The writes to a key that a node has heard of, by step. */
  ghost function HeardOf(run: Run, n: string, key: string): set<nat>
  {
    set i: nat | i < |run| && run[i].Put? && run[i].key == key && Heard(run, n, i)
  }

  lemma UnorderedWritesAreConcurrent(members: set<string>, run: Run, i: nat, j: nat)
    requires IsRun(members, run) && i < |run| && j < |run| && run[i].Put? && run[j].Put? && i != j
    requires !HappenedBefore(run, i, j) && !HappenedBefore(run, j, i)
    ensures var log := Exec(members, run).log; Concurrent(log[i].stamp.vector, log[j].stamp.vector)
  {
    var s := Exec(members, run);
    CausalityHolds(members, run);
    LanesHold(members, run);
    assert StampOk(run, s, i) && StampOk(run, s, j);
    assert Covers(run, s, s.log[i].stamp.vector, j) <==> Reaches(run, j, i);
    assert Covers(run, s, s.log[j].stamp.vector, i) <==> Reaches(run, i, j);
  }

  /** Writes to one key heard by a node, no two causally ordered: one of them leads and is held. */
  lemma ConcurrentWritesAreSettled(members: set<string>, run: Run, n: string, key: string) returns (w: nat)
    requires IsRun(members, run) && n in members && HeardOf(run, n, key) != {}
    requires forall i, j :: i in HeardOf(run, n, key) && j in HeardOf(run, n, key) ==> !HappenedBefore(run, i, j)
    ensures w in HeardOf(run, n, key) && Leads(run, Exec(members, run), n, w)
    ensures Holds(Exec(members, run), n, w)
    ensures Newest(set i | i in HeardOf(run, n, key) :: Exec(members, run).log[i], Exec(members, run).log[w])
  {
    var s, heard := Exec(members, run), HeardOf(run, n, key);
    HeardAreRivals(members, run, n, key);
    HeardAreConcurrent(members, run, n, key);
    var i0 :| i0 in heard;
    assert s.log[i0] in WriteSet(s, heard);
    var top := ConcurrentWritesHaveMaximum(WriteSet(s, heard), key);
    w :| w in heard && s.log[w] == top;
    MaximumIsNewest(WriteSet(s, heard), top);
    LeaderIsMaximum(members, run, n, key, w);
    HoldsTheLeader(members, run, n, w);
  }

  lemma HeardAreConcurrent(members: set<string>, run: Run, n: string, key: string)
    requires IsRun(members, run) && n in members
    requires forall i, j :: i in HeardOf(run, n, key) && j in HeardOf(run, n, key) ==> !HappenedBefore(run, i, j)
    requires forall i :: i in HeardOf(run, n, key) ==> i < |Exec(members, run).log|
    ensures var all := WriteSet(Exec(members, run), HeardOf(run, n, key));
      forall v, w :: v in all && w in all && v != w ==> Concurrent(v.stamp.vector, w.stamp.vector)
  {
    var s, heard := Exec(members, run), HeardOf(run, n, key);
    forall v, w | v in WriteSet(s, heard) && w in WriteSet(s, heard) && v != w
      ensures Concurrent(v.stamp.vector, w.stamp.vector)
    {
      var i :| i in heard && s.log[i] == v;
      var j :| j in heard && s.log[j] == w;
      UnorderedWritesAreConcurrent(members, run, i, j);
    }
  }

  /** The writes of a set of steps. */
  ghost function WriteSet(s: State, heard: set<nat>): set<Write>
    requires forall i :: i in heard ==> i < |s.log|
  {
    set i | i in heard :: s.log[i]
  }

  lemma HeardAreRivals(members: set<string>, run: Run, n: string, key: string)
    requires IsRun(members, run)
    ensures forall i :: i in HeardOf(run, n, key) ==> i < |Exec(members, run).log|
    ensures Rivals(WriteSet(Exec(members, run), HeardOf(run, n, key)), key)
  {
    var s, heard := Exec(members, run), HeardOf(run, n, key);
    LanesHold(members, run);
    forall w | w in WriteSet(s, heard)
      ensures w.key == key
    {
      var i :| i in heard && s.log[i] == w;
      assert StampOk(run, s, i);
    }
    forall v, w | v in WriteSet(s, heard) && w in WriteSet(s, heard) && v != w
      ensures v.stamp.node != w.stamp.node || v.stamp.ts != w.stamp.ts
    {
      var i :| i in heard && s.log[i] == v;
      var j :| j in heard && s.log[j] == w;
      StampsIdentifyWrites(members, run, i, j);
    }
  }

  lemma LeaderIsMaximum(members: set<string>, run: Run, n: string, key: string, i: nat)
    requires IsRun(members, run) && n in members && i in HeardOf(run, n, key)
    requires forall j :: j in HeardOf(run, n, key) ==> j < |Exec(members, run).log|
    requires Maximum(WriteSet(Exec(members, run), HeardOf(run, n, key)), Exec(members, run).log[i])
    ensures Leads(run, Exec(members, run), n, i)
  {
    var s, heard := Exec(members, run), HeardOf(run, n, key);
    forall j: nat | j < |run| && run[j].Put? && run[j].key == run[i].key && Heard(run, n, j) && j != i
      ensures After(s.log[i].stamp, s.log[j].stamp)
    {
      assert j in heard && s.log[j] in WriteSet(s, heard);
      StampsIdentifyWrites(members, run, i, j);
    }
  }

  // ------------------------------------------------- the winner can cycle

  /** Three node IDs in order, and the three stamps of the ring. All carry TS 1. */
  datatype Trio = Trio(a: string, b: string, c: string) {
    ghost predicate Ordered() { Less(a, b) && Less(b, c) && a != b && b != c && a != c }
    function All(): set<string> { {a, b, c} }
    function Y(): Stamp { Stamp(c, 1, map[c := 1]) }
    function X(): Stamp { Stamp(a, 1, map[a := 1, c := 1]) }
    function Z(): Stamp { Stamp(b, 1, map[b := 1]) }

    /** Four steps that write key under the stamps Y, X and Z. */
    function Making(key: string): Run
    {
      [Put(c, key, Number(1), true), Deliver(a, 0), Put(a, key, Number(2), true), Put(b, key, Number(3), true)]
    }

    /** Four more in which b and c hear what they missed. */
    function Hearing(): Run
    {
      [Deliver(b, 0), Deliver(b, 2), Deliver(c, 2), Deliver(c, 3)]
    }
  }

  /** After is not transitive: three stamps beat each other in a ring. */
  lemma AfterCycles(t: Trio)
    requires t.Ordered()
    ensures After(t.X(), t.Y()) && After(t.Y(), t.Z()) && After(t.Z(), t.X())
  {
    var x, y, z := t.X().vector, t.Y().vector, t.Z().vector;
    assert Lane(x, t.a) > Lane(y, t.a) && Leq(y, x);
    assert Lane(y, t.c) > Lane(z, t.c) && Lane(z, t.b) > Lane(y, t.b);
    assert Lane(x, t.a) > Lane(z, t.a) && Lane(z, t.b) > Lane(x, t.b);
  }

  lemma Extend(members: set<string>, run: Run, step: Step)
    requires IsRun(members, run) && Enabled(members, run, step)
    ensures IsRun(members, run + [step])
    ensures Exec(members, run + [step]) == After1(Exec(members, run), step)
  {
    var run' := run + [step];
    forall j | 0 <= j < |run'|
      ensures Enabled(members, run'[..j], run'[j])
    {
      assert run'[..j] == if j < |run| then run[..j] else run;
    }
    assert run'[..|run|] == run;
  }

  ghost predicate Moves(s: State, step: Step, t: State)
  {
    step.node in s.nodes && (step.Deliver? ==> step.src < |s.log|) && t == After1(s, step)
  }

  lemma ExtendTwo(members: set<string>, run: Run, p: Step, q: Step) returns (s: State, t: State)
    requires IsRun(members, run) && Enabled(members, run, p) && Enabled(members, run + [p], q)
    ensures IsRun(members, run + [p, q])
    ensures Moves(Exec(members, run), p, s) && Moves(s, q, t)
    ensures t == Exec(members, run + [p, q])
  {
    Extend(members, run, p);
    Extend(members, run + [p], q);
    assert run + [p] + [q] == run + [p, q];
    s, t := Exec(members, run + [p]), Exec(members, run + [p, q]);
  }

  /** After two steps: c has written Y, and a has heard of it. */
  ghost predicate RingBegun(t: Trio, key: string, s: State)
  {
    && s.nodes.Keys == t.All() && |s.log| == 2
    && s.log[0] == Write(key, Number(1), t.Y())
    && s.nodes[t.a].id == t.a && s.nodes[t.a].counter == 0 && s.nodes[t.a].clocks == map[t.a := 0, t.c := 1]
    && s.nodes[t.b] == Fresh(t.b)
    && s.nodes[t.c].data == map[key := s.log[0]]
  }

  /** After four steps: the three rival writes exist, one held at b and one at c. */
  ghost predicate RingIsMade(t: Trio, key: string, s: State)
  {
    && s.nodes.Keys == t.All() && |s.log| == 4
    && s.log[0] == Write(key, Number(1), t.Y()) && s.log[2] == Write(key, Number(2), t.X())
    && s.log[3] == Write(key, Number(3), t.Z())
    && s.nodes[t.b].data == map[key := s.log[3]] && s.nodes[t.c].data == map[key := s.log[0]]
  }

  lemma RingBegins(t: Trio, key: string, s0: State, s1: State, s2: State)
    requires t.Ordered() && s0 == State(map n | n in t.All() :: Fresh(n), [])
    requires Moves(s0, t.Making(key)[0], s1) && Moves(s1, t.Making(key)[1], s2)
    ensures RingBegun(t, key, s2)
  {
    assert s1.nodes[t.c].data == map[key := s1.log[0]];
    assert s1.log[0] == Write(key, Number(1), t.Y());
    assert s2.nodes[t.a].clocks == map[t.a := 0, t.c := 1];
  }

  lemma RingMade(t: Trio, key: string, s2: State, s3: State, s4: State)
    requires t.Ordered() && RingBegun(t, key, s2)
    requires Moves(s2, t.Making(key)[2], s3) && Moves(s3, t.Making(key)[3], s4)
    ensures RingIsMade(t, key, s4)
  {
    assert s3.log[2] == Write(key, Number(2), t.X());
    assert s4.log[3] == Write(key, Number(3), t.Z());
  }

  /** A received write that the stored one is not After takes its place. */
  lemma Replaces(s: State, n: string, src: nat, t: State, held: Write)
    requires Moves(s, Deliver(n, src), t)
    requires s.nodes[n].data == map[held.key := held] && s.log[src].key == held.key
    requires !After(held.stamp, s.log[src].stamp)
    ensures t.nodes[n].data == map[held.key := s.log[src]]
    ensures t.nodes.Keys == s.nodes.Keys && forall m :: m in s.nodes && m != n ==> t.nodes[m] == s.nodes[m]
    ensures t.log == s.log + [s.log[src]]
  {
  }

  lemma RingBeaten(t: Trio)
    requires t.Ordered()
    ensures !After(t.Y(), t.X()) && !After(t.Z(), t.Y()) && !After(t.X(), t.Z())
  {
    AfterCycles(t);
    AfterAsymmetric(t.X(), t.Y());
    AfterAsymmetric(t.Y(), t.Z());
    AfterAsymmetric(t.Z(), t.X());
  }

  lemma RingIsHeard(t: Trio, key: string, s4: State, s5: State, s6: State, s7: State, s8: State)
    requires t.Ordered() && RingIsMade(t, key, s4)
    requires Moves(s4, Deliver(t.b, 0), s5) && Moves(s5, Deliver(t.b, 2), s6)
    requires Moves(s6, Deliver(t.c, 2), s7) && Moves(s7, Deliver(t.c, 3), s8)
    ensures s8.nodes.Keys == t.All()
    ensures s8.nodes[t.b].data == map[key := s4.log[2]] && s8.nodes[t.c].data == map[key := s4.log[3]]
  {
    RingBeaten(t);
    Replaces(s4, t.b, 0, s5, s4.log[3]);
    Replaces(s5, t.b, 2, s6, s4.log[0]);
    Replaces(s6, t.c, 2, s7, s4.log[0]);
    Replaces(s7, t.c, 3, s8, s4.log[2]);
  }

  lemma RingHeard(t: Trio, key: string)
    requires t.Ordered()
    ensures var run := t.Making(key) + t.Hearing();
      HeardOf(run, t.b, key) == HeardOf(run, t.c, key) == {0, 2, 3}
  {
    var run := t.Making(key) + t.Hearing();
    assert run[3].node == t.b && run[4].src == 0 && run[5].src == 2;
    assert run[0].node == t.c && run[6].src == 2 && run[7].src == 3;
  }

  lemma RingRun(t: Trio, key: string)
    requires t.Ordered()
    ensures IsRun(t.All(), t.Making(key)) && RingIsMade(t, key, Exec(t.All(), t.Making(key)))
  {
    var none: Run, m := [], t.Making(key);
    var s1, s2 := ExtendTwo(t.All(), none, m[0], m[1]);
    RingBegins(t, key, Exec(t.All(), none), s1, s2);
    assert none + [m[0], m[1]] == [m[0], m[1]];
    var s3, s4 := ExtendTwo(t.All(), [m[0], m[1]], m[2], m[3]);
    RingMade(t, key, s2, s3, s4);
    assert [m[0], m[1]] + [m[2], m[3]] == m;
  }

  /** Two nodes that heard the same three writes to one key hold different values for it. */
  lemma NodesMayDiverge(t: Trio, key: string)
    requires t.Ordered()
    ensures var run := t.Making(key) + t.Hearing();
      && IsRun(t.All(), run)
      && HeardOf(run, t.b, key) == HeardOf(run, t.c, key) == {0, 2, 3}
      && var s := Exec(t.All(), run);
      && s.nodes[t.b].data == map[key := Write(key, Number(2), t.X())]
      && s.nodes[t.c].data == map[key := Write(key, Number(3), t.Z())]
  {
    var m, h := t.Making(key), t.Hearing();
    assert m + [h[0], h[1]] + [h[2], h[3]] == m + h;
    RingRun(t, key);
    var s5, s6 := ExtendTwo(t.All(), m, h[0], h[1]);
    var s7, s8 := ExtendTwo(t.All(), m + [h[0], h[1]], h[2], h[3]);
    RingIsHeard(t, key, Exec(t.All(), m), s5, s6, s7, s8);
    RingHeard(t, key);
  }
}
