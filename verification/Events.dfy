/**
 Buffered events and what a resume asks of them. IDs are the printed strings,
 compared as the client compares them; the empty string stands for no ID.
 */
module Events {
  import opened Text

  datatype Event = Event(id: string, channel: string, ts: int)

  function Last<T>(s: seq<T>, k: nat): (r: seq<T>)
    ensures |r| == if |s| <= k then |s| else k
  {
    if |s| <= k then s else s[|s| - k..]
  }

  /** Neither too old nor undated: the test on each event (seconds against a millisecond cutoff). */
  predicate InWindow(e: Event, cutoff: int)
  {
    !(e.ts > 0 && e.ts * 1000 < cutoff)
  }

  function Window(es: seq<Event>, cutoff: int): seq<Event>
  {
    if es == [] then []
    else
      var front, e := Window(es[..|es| - 1], cutoff), es[|es| - 1];
      if InWindow(e, cutoff) then front + [e] else front
  }

  /** What follows the newest event with that ID; everything when there is none. */
  function AfterMarker(es: seq<Event>, id: string): seq<Event>
  {
    if es == [] || es[|es| - 1].id == id then []
    else AfterMarker(es[..|es| - 1], id) + [es[|es| - 1]]
  }

  function Since(buffered: seq<Event>, id: string, cutoff: int): seq<Event>
  {
    var window := Window(buffered, cutoff);
    if id == "" then window else AfterMarker(window, id)
  }

  /** Server-assigned IDs: not empty, and strictly increasing as strings. */
  ghost predicate Increasing(es: seq<Event>)
  {
    && (forall i :: 0 <= i < |es| ==> es[i].id != "")
    && (forall i, j :: 0 <= i < j < |es| ==> Less(es[i].id, es[j].id))
  }

  lemma {:induction false} WindowAppend(a: seq<Event>, b: seq<Event>, cutoff: int)
    ensures Window(a + b, cutoff) == Window(a, cutoff) + Window(b, cutoff)
  {
    if b == [] {
      assert a + b == a;
    } else {
      assert (a + b)[..|a + b| - 1] == a + b[..|b| - 1];
      WindowAppend(a, b[..|b| - 1], cutoff);
    }
  }

  lemma {:induction false} WindowKeepsAll(es: seq<Event>, cutoff: int)
    requires forall e :: e in es ==> InWindow(e, cutoff)
    ensures Window(es, cutoff) == es
  {
    if es != [] {
      WindowKeepsAll(es[..|es| - 1], cutoff);
    }
  }

  lemma WindowStep(es: seq<Event>, i: nat, cutoff: int)
    requires i < |es|
    ensures Window(es[..i + 1], cutoff) ==
            Window(es[..i], cutoff) + if InWindow(es[i], cutoff) then [es[i]] else []
  {
    assert es[..i + 1][..i] == es[..i];
  }

  /** The window is the in-window part: exactly those events, still in order. */
  lemma {:induction false} WindowSelects(es: seq<Event>, cutoff: int)
    ensures forall e :: e in Window(es, cutoff) <==> e in es && InWindow(e, cutoff)
  {
    if es != [] {
      var front, last := es[..|es| - 1], es[|es| - 1];
      assert es == front + [last];
      WindowSelects(front, cutoff);
    }
  }

  lemma {:induction false} WindowInOrder(es: seq<Event>, cutoff: int)
    requires Increasing(es)
    ensures Increasing(Window(es, cutoff))
  {
    if es != [] {
      var front, last := es[..|es| - 1], es[|es| - 1];
      WindowInOrder(front, cutoff);
      WindowSelects(front, cutoff);
      var w := Window(front, cutoff);
      forall i | 0 <= i < |w|
        ensures Less(w[i].id, last.id)
      {
        assert w[i] in front;
      }
    }
  }

  lemma {:induction false} AfterMarkerAppend(a: seq<Event>, b: seq<Event>, id: string)
    requires forall e :: e in b ==> e.id != id
    ensures AfterMarker(a + b, id) == AfterMarker(a, id) + b
  {
    if b == [] {
      assert a + b == a;
    } else {
      assert (a + b)[..|a + b| - 1] == a + b[..|b| - 1];
      AfterMarkerAppend(a, b[..|b| - 1], id);
    }
  }

  lemma {:induction false} AfterMarkerInside(es: seq<Event>, id: string)
    ensures forall e :: e in AfterMarker(es, id) ==> e in es
  {
    if es != [] {
      AfterMarkerInside(es[..|es| - 1], id);
    }
  }

  lemma SinceInside(buffered: seq<Event>, id: string, cutoff: int)
    ensures forall e :: e in Since(buffered, id, cutoff) ==> e in buffered
  {
    WindowSelects(buffered, cutoff);
    AfterMarkerInside(Window(buffered, cutoff), id);
  }

  /** Events newer than the marker are replayed whole, after whatever older ones come along. */
  lemma SinceSplits(before: seq<Event>, missed: seq<Event>, id: string, cutoff: int) returns (seen: seq<Event>)
    requires id != ""
    requires forall e :: e in missed ==> InWindow(e, cutoff) && e.id != id
    ensures Since(before + missed, id, cutoff) == seen + missed
    ensures forall e :: e in seen ==> e in before
  {
    WindowAppend(before, missed, cutoff);
    WindowKeepsAll(missed, cutoff);
    WindowSelects(before, cutoff);
    AfterMarkerAppend(Window(before, cutoff), missed, id);
    AfterMarkerInside(Window(before, cutoff), id);
    seen := AfterMarker(Window(before, cutoff), id);
  }

  /** The replay is a suffix of the window, cut just after the newest event with that ID. */
  ghost predicate CutAfter(es: seq<Event>, id: string, k: nat)
  {
    && k <= |es|
    && (k > 0 ==> es[k - 1].id == id)
    && (forall j :: k <= j < |es| ==> es[j].id != id)
  }

  lemma {:induction false} AfterMarkerCuts(es: seq<Event>, id: string) returns (k: nat)
    ensures CutAfter(es, id, k) && AfterMarker(es, id) == es[k..]
  {
    if es == [] || es[|es| - 1].id == id {
      k := |es|;
    } else {
      k := AfterMarkerCuts(es[..|es| - 1], id);
    }
  }

  lemma CutStep(es: seq<Event>, e: Event, id: string, k: nat)
    requires CutAfter(es, id, k)
    ensures CutAfter(es + [e], id, if e.id == id then |es| + 1 else k)
  {
  }

  lemma CutIsUnique(es: seq<Event>, id: string, k: nat)
    requires k <= |es|
    ensures CutAfter(es, id, k) ==> AfterMarker(es, id) == es[k..]
  {
    var j := AfterMarkerCuts(es, id);
  }

  /**
   The promise of Since, for a buffer of increasing IDs: an in-order part of the
   buffer that has every in-window event after the given ID, and nothing at or
   before it when that ID is itself in the window.
   */
  lemma SinceReplaysWhatWasMissed(buffered: seq<Event>, id: string, cutoff: int)
    requires Increasing(buffered)
    ensures var r := Since(buffered, id, cutoff);
      && Increasing(r)
      && (forall e :: e in buffered && InWindow(e, cutoff) && Less(id, e.id) ==> e in r)
      && (forall e :: e in r ==> e in buffered && InWindow(e, cutoff))
      && ((exists e :: e in buffered && InWindow(e, cutoff) && e.id == id) ==> forall e :: e in r ==> Less(id, e.id))
  {
    var w := Window(buffered, cutoff);
    WindowSelects(buffered, cutoff);
    WindowInOrder(buffered, cutoff);
    if id == "" {
      assert forall e :: e in w ==> Less(id, e.id);
    } else {
      var k := AfterMarkerCuts(w, id);
      SuffixInOrder(w, k);
      CutKeepsNewer(w, id, k);
      if e :| e in w && e.id == id {
        CutDropsOlder(w, id, k, e);
      }
    }
  }

  lemma SuffixInOrder(w: seq<Event>, k: nat)
    requires Increasing(w) && k <= |w|
    ensures Increasing(w[k..])
    ensures forall e :: e in w[k..] ==> e in w
  {
  }

  lemma CutKeepsNewer(w: seq<Event>, id: string, k: nat)
    requires Increasing(w) && CutAfter(w, id, k)
    ensures forall e :: e in w && Less(id, e.id) ==> e in w[k..]
  {
    forall i | 0 <= i < |w| && Less(id, w[i].id)
      ensures w[i] in w[k..]
    {
      LessAsymmetric(w[i].id, id);
      assert w[k..][i - k] == w[i];
    }
  }

  lemma CutDropsOlder(w: seq<Event>, id: string, k: nat, e: Event)
    requires Increasing(w) && CutAfter(w, id, k) && e in w && e.id == id
    ensures forall x :: x in w[k..] ==> Less(id, x.id)
  {
    var i :| 0 <= i < |w| && w[i] == e;
    LessIrreflexive(id);
    assert k > 0 && w[k - 1].id == id;
  }
}

/** The per-channel ring of recent events. */
module RingBuffers {
  import opened Events
  import opened Seqs

  datatype Slot = Empty | Full(event: Event)

  /** A position past the end wraps once. */
  method Wrapped(x: nat, n: nat) returns (r: nat)
    requires n > 0 && x < 2 * n
    ensures r == if x < n then x else x - n
  {
    r := x % n;
  }

  /** Where the i-th oldest of n slots sits. */
  function Index(start: nat, i: nat, n: nat): (k: nat)
    requires start < n && i < n
    ensures k < n
  {
    if start + i < n then start + i else start + i - n
  }

  lemma NextOldest(start: nat, i: nat, n: nat)
    requires start < n && i + 1 < n
    ensures Index(if start + 1 < n then start + 1 else 0, i, n) == Index(start, i + 1, n) != start
  {
  }

  lemma ItemsAfterPush(items: seq<Event>, e: Event, n: nat)
    requires |items| <= n && n > 0
    ensures var after := Last(items + [e], n);
      && |after| == (if |items| == n then n else |items| + 1)
      && after[|after| - 1] == e
      && forall i :: 0 <= i < |after| - 1 ==> after[i] == items[if |items| == n then i + 1 else i]
  {
  }

  class RingBuffer {
    const events: array<Slot>
    var start: nat
    var count: nat
    ghost var items: seq<Event>

    /** The array holds the items, oldest first, from start on and round the end. */
    ghost predicate Valid()
      reads this, events
    {
      && start < events.Length && count == |items| <= events.Length
      && forall i :: 0 <= i < count ==> events[Index(start, i, events.Length)] == Full(items[i])
    }

    constructor (capacity: nat)
      requires capacity > 0
      ensures Valid() && fresh(events) && events.Length == capacity && items == []
    {
      events := new Slot[capacity](_ => Empty);
      start, count, items := 0, 0, [];
    }

    /** Overwrites the oldest event once the ring is full. */
    method Push(e: Event)
      requires Valid()
      modifies this, events
      ensures Valid() && items == Last(old(items) + [e], events.Length)
    {
      var pos := Wrapped(start + count, events.Length);
      events[pos] := Full(e);
      if count == events.Length {
        start := Wrapped(start + 1, events.Length);
      } else {
        count := count + 1;
      }
      ItemsAfterPush(items, e, events.Length);
      items := Last(items + [e], events.Length);
      forall i | 0 <= i < count
        ensures events[Index(start, i, events.Length)] == Full(items[i])
      {
        if i < count - 1 && old(count) == events.Length {
          NextOldest(old(start), i, events.Length);
        }
      }
    }

    /** One pass over the ring, remembering where the marker sits in the window. */
    method Since(lastEventID: string, cutoff: int) returns (r: seq<Event>)
      requires Valid()
      ensures r == Events.Since(items, lastEventID, cutoff)
    {
      var window: seq<Event> := [];
      var markerAt := -1;
      var i := 0;
      while i < count
        invariant 0 <= i <= count
        invariant window == Window(items[..i], cutoff)
        invariant -1 <= markerAt < |window|
        invariant lastEventID != "" ==> CutAfter(window, lastEventID, markerAt + 1)
        invariant lastEventID == "" ==> markerAt == -1
      {
        var idx := Wrapped(start + i, events.Length);
        assert idx == Index(start, i, events.Length) && events[idx] == Full(items[i]);
        var e := events[idx].event;
        WindowStep(items, i, cutoff);
        if lastEventID != "" {
          CutStep(window, e, lastEventID, markerAt + 1);
        }
        if InWindow(e, cutoff) {
          window := window + [e];
          if lastEventID != "" && e.id == lastEventID {
            markerAt := |window| - 1;
          }
        }
        i := i + 1;
      }
      Whole(items);
      CutIsUnique(window, lastEventID, markerAt + 1);
      Whole(window);
      r := window[markerAt + 1..];
    }
  }

  /** The contents after pushing a whole sequence, one event at a time. */
  function PushAll(buffered: seq<Event>, es: seq<Event>, capacity: nat): seq<Event>
    decreases |es|
  {
    if es == [] then buffered else PushAll(Last(buffered + [es[0]], capacity), es[1..], capacity)
  }

  /** After any number of pushes the ring holds exactly the last events, in order. */
  lemma {:induction false} PushAllKeepsLast(older: seq<Event>, es: seq<Event>, capacity: nat)
    requires capacity > 0
    ensures PushAll(Last(older, capacity), es, capacity) == Last(older + es, capacity)
    decreases |es|
  {
    if es == [] {
      assert older + es == older;
    } else {
      var next := older + [es[0]];
      assert Last(Last(older, capacity) + [es[0]], capacity) == Last(next, capacity);
      PushAllKeepsLast(next, es[1..], capacity);
      assert next + es[1..] == older + es;
    }
  }
}
