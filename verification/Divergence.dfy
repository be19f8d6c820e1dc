/**
 When two nodes can end up apart for good: exactly when, among the writes to a key
 that a node has heard of, none is After all the others.
 */
module Divergence {
  import opened Clocks
  import opened Replicas
  import opened Cluster
  import opened Convergence

  /** Hand node n the messages of the given steps, one after the other. */
  function Feed(n: string, srcs: seq<nat>): Run
  {
    if srcs == [] then [] else Feed(n, srcs[..|srcs| - 1]) + [Deliver(n, srcs[|srcs| - 1])]
  }

  /** Steps of a run that gossiped a write to the key. */
  ghost predicate Gossiped(run: Run, srcs: seq<nat>, key: string)
  {
    forall k :: 0 <= k < |srcs| ==>
      srcs[k] < |run| && run[srcs[k]].Put? && run[srcs[k]].gossip && run[srcs[k]].key == key
  }

  ghost predicate InRange(srcs: seq<nat>, n: nat)
  {
    forall k :: 0 <= k < |srcs| ==> srcs[k] < n
  }

  /** The writes of the given steps. */
  ghost function WritesOf(s: State, srcs: seq<nat>): (ws: seq<Write>)
    requires InRange(srcs, |s.log|)
    ensures |ws| == |srcs|
  {
    if srcs == [] then [] else WritesOf(s, srcs[..|srcs| - 1]) + [s.log[srcs[|srcs| - 1]]]
  }

  /** Two tables say the same about a key. */
  ghost predicate SameAt(a: map<string, Write>, b: map<string, Write>, key: string)
  {
    (key in a <==> key in b) && (key in a ==> a[key] == b[key])
  }

  lemma ResolveAt(a: map<string, Write>, b: map<string, Write>, w: Write)
    requires SameAt(a, b, w.key)
    ensures SameAt(Resolve(a, w), Resolve(b, w), w.key)
  {
  }

  /** What feeding does to the state. */
  ghost predicate FedTo(s: State, t: State, n: string, srcs: seq<nat>, key: string)
    requires n in s.nodes && InRange(srcs, |s.log|)
  {
    && t.nodes.Keys == s.nodes.Keys
    && SameAt(t.nodes[n].data, ResolveAll(WritesOf(s, srcs)), key)
    && (forall m :: m in s.nodes && m != n ==> t.nodes[m] == s.nodes[m])
    && |t.log| >= |s.log| && t.log[..|s.log|] == s.log
  }

  lemma {:induction false} Fed(members: set<string>, run: Run, n: string, srcs: seq<nat>, key: string)
    requires IsRun(members, run) && n in members && Gossiped(run, srcs, key)
    requires key !in Exec(members, run).nodes[n].data
    ensures InRange(srcs, |run|)
    ensures IsRun(members, run + Feed(n, srcs))
    ensures FedTo(Exec(members, run), Exec(members, run + Feed(n, srcs)), n, srcs, key)
  {
    var s := Exec(members, run);
    if srcs == [] {
      assert run + Feed(n, srcs) == run;
    } else {
      var front, i := srcs[..|srcs| - 1], srcs[|srcs| - 1];
      var run1 := run + Feed(n, front);
      Fed(members, run, n, front, key);
      assert run + Feed(n, srcs) == run1 + [Deliver(n, i)];
      Extend(members, run1, Deliver(n, i));
      LanesHold(members, run);
      assert StampOk(run, s, i);
      FedOnce(s, Exec(members, run1), n, srcs, key);
    }
  }

  lemma FedOnce(s: State, t: State, n: string, srcs: seq<nat>, key: string)
    requires srcs != [] && n in s.nodes && InRange(srcs, |s.log|)
    requires InRange(srcs[..|srcs| - 1], |s.log|) && FedTo(s, t, n, srcs[..|srcs| - 1], key)
    requires s.log[srcs[|srcs| - 1]].key == key
    ensures FedTo(s, After1(t, Deliver(n, srcs[|srcs| - 1])), n, srcs, key)
  {
    var front, i := srcs[..|srcs| - 1], srcs[|srcs| - 1];
    var ws := WritesOf(s, srcs);
    assert ws[..|ws| - 1] == WritesOf(s, front);
    assert t.log[..|s.log|][i] == t.log[i];
    ResolveAt(t.nodes[n].data, ResolveAll(WritesOf(s, front)), s.log[i]);
  }

  /** What feeding does to who has heard of what. */
  lemma {:induction false} FedHeard(run: Run, n: string, srcs: seq<nat>, key: string, m: string)
    requires Gossiped(run, srcs, key)
    ensures HeardOf(run + Feed(n, srcs), m, key) == HeardOf(run, m, key) + if m == n then Elements(srcs) else {}
  {
    if srcs == [] {
      assert run + Feed(n, srcs) == run;
      assert Elements(srcs) == {};
    } else {
      var front, i := srcs[..|srcs| - 1], srcs[|srcs| - 1];
      var run1 := run + Feed(n, front);
      FedHeard(run, n, front, key, m);
      assert run + Feed(n, srcs) == run1 + [Deliver(n, i)];
      assert run1[i] == run[i];
      HeardOfNext(run1, n, i, key, m);
      assert Elements(srcs) == Elements(front) + {i};
    }
  }

  lemma HeardOfNext(run: Run, n: string, i: nat, key: string, m: string)
    requires i < |run| && run[i].Put? && run[i].key == key
    ensures HeardOf(run + [Deliver(n, i)], m, key) == HeardOf(run, m, key) + if m == n then {i} else {}
  {
    var run' := run + [Deliver(n, i)];
    forall j: nat
      ensures j in HeardOf(run', m, key) <==> j in HeardOf(run, m, key) || (m == n && j == i)
    {
      HeardNext(run, Deliver(n, i), m, j);
    }
  }

  // --------------------------------------------------- the exact condition

  /** Some write that n has heard of is After all the others. */
  ghost predicate HasLeader(members: set<string>, run: Run, n: string, key: string)
    requires IsRun(members, run)
  {
    exists w :: w in HeardOf(run, n, key) && Leads(run, Exec(members, run), n, w)
  }

  /** A longer run, after which a and b have heard of the same writes to the key and hold different ones. */
  ghost predicate Diverges(
    members: set<string>, run: Run, longer: Run, a: string, b: string, key: string, heard: set<nat>)
    requires a in members && b in members
  {
    && run <= longer && IsRun(members, longer)
    && HeardOf(longer, a, key) == HeardOf(longer, b, key) == heard
    && HoldDifferent(Exec(members, longer), a, b, key)
  }

  ghost predicate HoldDifferent(s: State, a: string, b: string, key: string)
    requires a in s.nodes && b in s.nodes
  {
    key in s.nodes[a].data && key in s.nodes[b].data && s.nodes[a].data[key] != s.nodes[b].data[key]
  }

  lemma {:induction false} WritesOfSteps(s: State, srcs: seq<nat>)
    requires InRange(srcs, |s.log|)
    ensures forall k :: 0 <= k < |srcs| ==> WritesOf(s, srcs)[k] == s.log[srcs[k]]
  {
    if srcs != [] {
      WritesOfSteps(s, srcs[..|srcs| - 1]);
    }
  }

  /** A step whose write overturns what the others settle on. */
  lemma Overturned(members: set<string>, run: Run, n: string, key: string, srcs: seq<nat>) returns (i: nat)
    requires IsRun(members, run) && n in members && srcs != [] && Elements(srcs) == HeardOf(run, n, key)
    requires !HasLeader(members, run, n, key)
    requires InRange(srcs, |run|)
    ensures i in srcs
    ensures var s := Exec(members, run); var settled := ResolveAll(WritesOf(s, srcs));
      && key in settled && s.log[i].key == key
      && settled[key] != s.log[i] && !After(settled[key].stamp, s.log[i].stamp)
  {
    var s, heard := Exec(members, run), HeardOf(run, n, key);
    var ws := WritesOf(s, srcs);
    HeardAreRivals(members, run, n, key);
    WritesOfSteps(s, srcs);
    forall w | w in ws
      ensures w in WriteSet(s, heard) && w.key == key
    {
      var k :| 0 <= k < |ws| && ws[k] == w;
      assert srcs[k] in Elements(srcs);
    }
    SettlesInside(ws, key);
    var top := ResolveAll(ws)[key];
    var k :| 0 <= k < |ws| && ws[k] == top;
    assert srcs[k] in Elements(srcs) && s.log[srcs[k]] == top;
    if Maximum(WriteSet(s, heard), top) {
      LeaderIsMaximum(members, run, n, key, srcs[k]);
    }
    var v :| v in WriteSet(s, heard) && v != top && !After(top.stamp, v.stamp);
    i :| i in heard && s.log[i] == v;
    assert i in Elements(srcs);
  }

  /** All of them were sent to the other nodes. */
  ghost predicate WereSent(run: Run, heard: set<nat>)
  {
    forall i :: i in heard ==> i < |run| && run[i].Put? && run[i].gossip
  }

  /** Node a is fed the steps srcs, then node b the same and one of them again. */
  ghost predicate FedBoth(run: Run, run1: Run, run2: Run, a: string, b: string, srcs: seq<nat>, i: nat)
  {
    run1 == run + Feed(a, srcs) && run2 == run1 + Feed(b, srcs + [i])
  }

  lemma BothHear(run: Run, run1: Run, run2: Run, key: string, a: string, b: string, srcs: seq<nat>, i: nat)
    requires a != b && HeardOf(run, a, key) == {} && HeardOf(run, b, key) == {}
    requires Gossiped(run, srcs, key) && i in srcs && FedBoth(run, run1, run2, a, b, srcs, i)
    ensures HeardOf(run2, a, key) == HeardOf(run2, b, key) == Elements(srcs)
    ensures HeardOf(run1, b, key) == {} && Gossiped(run1, srcs + [i], key)
  {
    FedHeard(run, a, srcs, key, a);
    FedHeard(run, a, srcs, key, b);
    assert Elements(srcs + [i]) == Elements(srcs);
    FedHeard(run1, b, srcs + [i], key, a);
    FedHeard(run1, b, srcs + [i], key, b);
  }

  /** What the two then hold. */
  ghost predicate BothHold(s: State, t: State, key: string, a: string, b: string, srcs: seq<nat>, i: nat)
    requires InRange(srcs + [i], |s.log|) && InRange(srcs, |s.log|) && a in t.nodes && b in t.nodes
  {
    && SameAt(t.nodes[a].data, ResolveAll(WritesOf(s, srcs)), key)
    && SameAt(t.nodes[b].data, ResolveAll(WritesOf(s, srcs + [i])), key)
  }

  lemma BothSettle(
    members: set<string>, run: Run, run1: Run, run2: Run, key: string, a: string, b: string, srcs: seq<nat>, i: nat)
    requires IsRun(members, run) && a in members && b in members && a != b
    requires HeardOf(run, a, key) == {} && HeardOf(run1, b, key) == {}
    requires Gossiped(run, srcs, key) && Gossiped(run1, srcs + [i], key) && i in srcs
    requires FedBoth(run, run1, run2, a, b, srcs, i)
    ensures InRange(srcs + [i], |run|) && IsRun(members, run2)
    ensures BothHold(Exec(members, run), Exec(members, run2), key, a, b, srcs, i)
  {
    FirstSettles(members, run, key, a, srcs);
    SecondSettles(members, run, run1, key, b, srcs + [i]);
  }

  lemma FirstSettles(members: set<string>, run: Run, key: string, a: string, srcs: seq<nat>)
    requires IsRun(members, run) && a in members && HeardOf(run, a, key) == {} && Gossiped(run, srcs, key)
    ensures InRange(srcs, |run|) && IsRun(members, run + Feed(a, srcs))
    ensures FedTo(Exec(members, run), Exec(members, run + Feed(a, srcs)), a, srcs, key)
  {
    StoredIsHeard(members, run, a, key);
    Fed(members, run, a, srcs, key);
  }

  /** Feeding in a later state settles on the same writes. */
  lemma SecondSettles(members: set<string>, run: Run, run1: Run, key: string, b: string, srcs: seq<nat>)
    requires IsRun(members, run) && IsRun(members, run1) && b in members && HeardOf(run1, b, key) == {}
    requires Gossiped(run1, srcs, key) && InRange(srcs, |run|)
    requires var s, t := Exec(members, run), Exec(members, run1); |t.log| >= |s.log| && t.log[..|s.log|] == s.log
    ensures IsRun(members, run1 + Feed(b, srcs))
    ensures var t := Exec(members, run1 + Feed(b, srcs));
      && SameAt(t.nodes[b].data, ResolveAll(WritesOf(Exec(members, run), srcs)), key)
      && forall m :: m in members && m != b ==> t.nodes[m] == Exec(members, run1).nodes[m]
  {
    FirstSettles(members, run1, key, b, srcs);
    SameWrites(Exec(members, run), Exec(members, run1), srcs);
  }

  /** The write that is delivered again to b overturns what it held. */
  lemma EndApart(s: State, t: State, key: string, a: string, b: string, srcs: seq<nat>, i: nat)
    requires InRange(srcs + [i], |s.log|) && InRange(srcs, |s.log|) && a in t.nodes && b in t.nodes
    requires BothHold(s, t, key, a, b, srcs, i)
    requires var settled := ResolveAll(WritesOf(s, srcs));
      && key in settled && s.log[i].key == key
      && settled[key] != s.log[i] && !After(settled[key].stamp, s.log[i].stamp)
    ensures HoldDifferent(t, a, b, key)
  {
    var ws := WritesOf(s, srcs + [i]);
    assert (srcs + [i])[..|srcs|] == srcs;
    assert ws[..|ws| - 1] == WritesOf(s, srcs) && ws[|ws| - 1] == s.log[i];
  }

  /** Without a leader, two nodes that know nothing yet can be told the same and end apart. */
  lemma NoLeaderCanDiverge(members: set<string>, run: Run, n: string, key: string, a: string, b: string)
    returns (longer: Run)
    requires IsRun(members, run) && n in members && a in members && b in members && a != b
    requires HeardOf(run, n, key) != {} && WereSent(run, HeardOf(run, n, key))
    requires HeardOf(run, a, key) == {} && HeardOf(run, b, key) == {}
    requires !HasLeader(members, run, n, key)
    ensures Diverges(members, run, longer, a, b, key, HeardOf(run, n, key))
  {
    var srcs := StepsHeard(run, n, key);
    var i := Overturned(members, run, n, key, srcs);
    var run1 := run + Feed(a, srcs);
    longer := run1 + Feed(b, srcs + [i]);
    BothHear(run, run1, longer, key, a, b, srcs, i);
    BothSettle(members, run, run1, longer, key, a, b, srcs, i);
    EndApart(Exec(members, run), Exec(members, longer), key, a, b, srcs, i);
  }

  lemma StepsHeard(run: Run, n: string, key: string) returns (srcs: seq<nat>)
    requires HeardOf(run, n, key) != {} && WereSent(run, HeardOf(run, n, key))
    ensures srcs != [] && Elements(srcs) == HeardOf(run, n, key) && Gossiped(run, srcs, key)
  {
    srcs := Enumerate(HeardOf(run, n, key));
    forall k | 0 <= k < |srcs|
      ensures srcs[k] in HeardOf(run, n, key)
    {
      assert srcs[k] in Elements(srcs);
    }
    assert srcs != [];
  }

  lemma StoredIsHeard(members: set<string>, run: Run, n: string, key: string)
    requires IsRun(members, run) && n in members
    ensures key in Exec(members, run).nodes[n].data ==> HeardOf(run, n, key) != {}
  {
    StoresHold(members, run);
    LanesHold(members, run);
    if key in Exec(members, run).nodes[n].data {
      assert StoredOk(run, Exec(members, run), n, key);
      StoredWasHeard(run, Exec(members, run), n, key);
    }
  }

  lemma StoredWasHeard(run: Run, s: State, n: string, key: string)
    requires LaneInvariant(run, s) && n in s.nodes && key in s.nodes[n].data && StoredOk(run, s, n, key)
    ensures HeardOf(run, n, key) != {}
  {
    var i: nat :| i < |run| && run[i].Put? && Heard(run, n, i) && s.log[i] == s.nodes[n].data[key];
    assert StampOk(run, s, i);
    assert i in HeardOf(run, n, key);
  }

  lemma {:induction false} SameWrites(s: State, t: State, srcs: seq<nat>)
    requires InRange(srcs, |s.log|) && |t.log| >= |s.log| && t.log[..|s.log|] == s.log
    ensures WritesOf(t, srcs) == WritesOf(s, srcs)
  {
    if srcs != [] {
      var i := srcs[|srcs| - 1];
      SameWrites(s, t, srcs[..|srcs| - 1]);
      assert t.log[..|s.log|][i] == t.log[i];
    }
  }

  /** Later steps do not touch the writes already made. */
  lemma {:induction false} LogKeepsPrefix(members: set<string>, run: Run, longer: Run)
    requires IsRun(members, longer) && IsRun(members, run) && run <= longer
    ensures Exec(members, run).log <= Exec(members, longer).log
    decreases |longer|
  {
    if |run| < |longer| {
      FrontIsRun(members, longer);
      LogKeepsPrefix(members, run, longer[..|longer| - 1]);
    } else {
      assert run == longer;
    }
  }

  /** With a leader, nodes that have been told the same agree, whatever else happened. */
  lemma LeaderPreventsDivergence(
    members: set<string>, run: Run, n: string, key: string, a: string, b: string, longer: Run)
    requires IsRun(members, run) && n in members && a in members && b in members
    requires HasLeader(members, run, n, key)
    ensures !Diverges(members, run, longer, a, b, key, HeardOf(run, n, key))
  {
    if Diverges(members, run, longer, a, b, key, HeardOf(run, n, key)) {
      var w :| w in HeardOf(run, n, key) && Leads(run, Exec(members, run), n, w);
      LogKeepsPrefix(members, run, longer);
      StillLeads(run, Exec(members, run), longer, Exec(members, longer), n, a, key, w);
      forall i: nat | i < |longer| && longer[i].Put? && longer[i].key == longer[w].key
        ensures Heard(longer, a, i) <==> Heard(longer, b, i)
      {
        assert i in HeardOf(longer, a, key) <==> i in HeardOf(longer, b, key);
      }
      NodesAgree(members, longer, a, b, w);
    }
  }

  /** A leader at n leads wherever the same writes have been heard. */
  lemma StillLeads(run: Run, s: State, run': Run, t: State, n: string, a: string, key: string, w: nat)
    requires |s.log| == |run| && |t.log| == |run'| && run <= run' && s.log <= t.log
    requires w in HeardOf(run, n, key) && Leads(run, s, n, w) && HeardOf(run', a, key) == HeardOf(run, n, key)
    ensures Leads(run', t, a, w) && run'[w].key == key
  {
    assert w in HeardOf(run', a, key);
    forall i: nat | i < |run'| && run'[i].Put? && run'[i].key == run'[w].key && Heard(run', a, i) && i != w
      ensures After(t.log[w].stamp, t.log[i].stamp)
    {
      assert i in HeardOf(run', a, key);
      assert t.log[i] == s.log[i] && t.log[w] == s.log[w];
    }
  }

  /**
   The exact condition over runs: two nodes that have heard of nothing can be led
   apart by the gossiped writes that n has heard of, if and only if none of these leads.
   */
  lemma DivergesExactlyWithoutLeader(members: set<string>, run: Run, n: string, key: string, a: string, b: string)
    requires IsRun(members, run) && n in members && a in members && b in members && a != b
    requires HeardOf(run, n, key) != {} && WereSent(run, HeardOf(run, n, key))
    requires HeardOf(run, a, key) == {} && HeardOf(run, b, key) == {}
    ensures (exists longer :: Diverges(members, run, longer, a, b, key, HeardOf(run, n, key)))
            <==> !HasLeader(members, run, n, key)
  {
    if HasLeader(members, run, n, key) {
      forall longer
        ensures !Diverges(members, run, longer, a, b, key, HeardOf(run, n, key))
      {
        LeaderPreventsDivergence(members, run, n, key, a, b, longer);
      }
    } else {
      var longer := NoLeaderCanDiverge(members, run, n, key, a, b);
    }
  }
}
