/**
 Vector clocks: the stamps that Oni Memory puts on writes, the comparison that
 decides a last-write-wins conflict, and the live clock each node keeps.
 Lanes are unbounded here; the program keeps them in 64-bit words.
 */
module Clocks {
  import opened Text

  /** Logical time per node; an absent lane reads as zero. */
  type Vector = map<string, nat>

  /** An immutable clock snapshot attached to one write. */
  datatype Stamp = Stamp(node: string, ts: nat, vector: Vector)

  function Lane(v: Vector, n: string): nat
  {
    if n in v then v[n] else 0
  }

  /** Pointwise order on vectors. */
  ghost predicate Leq(a: Vector, b: Vector)
  {
    forall n :: Lane(a, n) <= Lane(b, n)
  }

  /** Strict vector dominance. */
  ghost predicate Dominates(a: Vector, b: Vector)
  {
    Leq(b, a) && !Leq(a, b)
  }

  ghost predicate Concurrent(a: Vector, b: Vector)
  {
    !Leq(a, b) && !Leq(b, a)
  }

  /** Pointwise maximum over the union of the lanes. */
  function Join(a: Vector, b: Vector): (v: Vector)
    ensures v.Keys == a.Keys + b.Keys
    ensures forall n :: Lane(v, n) == if Lane(a, n) < Lane(b, n) then Lane(b, n) else Lane(a, n)
  {
    map n | n in a.Keys + b.Keys :: if Lane(a, n) < Lane(b, n) then Lane(b, n) else Lane(a, n)
  }

  /** The tie-break between stamps neither of which dominates: TS, then node ID. */
  predicate TieBreak(x: Stamp, y: Stamp)
  {
    if x.ts != y.ts then x.ts > y.ts else Less(y.node, x.node)
  }

  /** Does x win a last-write-wins conflict against y? */
  ghost predicate After(x: Stamp, y: Stamp)
  {
    if Dominates(x.vector, y.vector) then true
    else if Dominates(y.vector, x.vector) then false
    else TieBreak(x, y)
  }

  lemma AfterAsymmetric(x: Stamp, y: Stamp)
    ensures !(After(x, y) && After(y, x))
  {
    LessAsymmetric(x.node, y.node);
  }

  /** Two stamps can only tie when they name the same node and time. */
  lemma AfterTotal(x: Stamp, y: Stamp)
    requires x.node != y.node || x.ts != y.ts
    ensures After(x, y) || After(y, x)
  {
    LessTotal(x.node, y.node);
  }

  /** ClockValue.After: two flags raised in one pass over the union of the lanes. */
  method CompareAfter(cv: Stamp, other: Stamp) returns (wins: bool)
    ensures wins <==> After(cv, other)
  {
    var cvDom, otherDom := false, false;
    ghost var up, down := "", "";
    var seen := cv.vector.Keys + other.vector.Keys;
    var todo := seen;
    while todo != {}
      invariant cvDom ==> Lane(cv.vector, up) > Lane(other.vector, up)
      invariant !cvDom ==> forall n :: n in todo || Lane(cv.vector, n) <= Lane(other.vector, n)
      invariant otherDom ==> Lane(other.vector, down) > Lane(cv.vector, down)
      invariant !otherDom ==> forall n :: n in todo || Lane(other.vector, n) <= Lane(cv.vector, n)
      decreases todo
    {
      var n :| n in todo;
      var a, b := Lane(cv.vector, n), Lane(other.vector, n);
      todo := todo - {n};
      if a > b {
        cvDom, up := true, n;
      }
      if b > a {
        otherDom, down := true, n;
      }
    }
    assert cvDom <==> !Leq(cv.vector, other.vector);
    assert otherDom <==> !Leq(other.vector, cv.vector);
    if cvDom && !otherDom {
      return true;
    } else if otherDom && !cvDom {
      return false;
    } else if cv.ts != other.ts {
      return cv.ts > other.ts;
    } else {
      return Less(other.node, cv.node);
    }
  }

  /** The live clock of one node. */
  class VectorClock {
    const node: string
    var clocks: Vector
    var localTS: nat

    constructor (id: string)
      ensures node == id && clocks == map[id := 0] && localTS == 0
    {
      node := id;
      clocks := map[id := 0];
      localTS := 0;
    }

    /** Advance the local counter and stamp a write with the new vector. */
    method Tick() returns (s: Stamp)
      modifies this
      ensures localTS == old(localTS) + 1
      ensures clocks == old(clocks)[node := localTS]
      ensures s == Stamp(node, localTS, clocks)
    {
      localTS := localTS + 1;
      clocks := clocks[node := localTS];
      s := Stamp(node, localTS, clocks);
    }

    /**
     Raise every lane to the received one. The code's final test, meant to pull
     the local counter up when the received own lane is ahead, can never hold:
     the loop has already raised that lane. So the counter never moves.
     */
    method Merge(received: Stamp)
      modifies this
      ensures clocks == Join(old(clocks), received.vector)
      ensures localTS == old(localTS)
    {
      ghost var was, goal := clocks, Join(clocks, received.vector);
      assert forall n :: n in goal ==> goal[n] == Lane(goal, n);
      var todo := received.vector.Keys;
      while todo != {}
        invariant todo <= received.vector.Keys
        invariant localTS == old(localTS)
        invariant forall n :: n in clocks <==> n in was || n in received.vector.Keys - todo
        invariant forall n :: n in clocks && n in todo ==> clocks[n] == was[n]
        invariant forall n :: n in clocks && n !in todo ==> clocks[n] == goal[n]
        decreases todo
      {
        var n :| n in todo;
        var t := received.vector[n];
        assert n in clocks <==> n in was;
        if n !in clocks || t > clocks[n] {
          clocks := clocks[n := t];
        }
        assert clocks[n] == goal[n];
        todo := todo - {n};
      }
      assert clocks == goal;
      if Lane(received.vector, node) > Lane(clocks, node) {
        assert false; // the code would store the received own lane here
      }
    }
  }
}
