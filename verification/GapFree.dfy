/**
 Completeness of the resume protocol on one channel: when the client's log has no
 gap. Each hazard (an age or ring limit, a full send queue, a broadcast between
 subscription and replay) gets the exact condition under which it loses events.
 */
module GapFree {
  import opened Seqs
  import opened Text
  import opened Events
  import opened EventIds
  import opened Resume

  /** The events a client whose last ID is given will dispatch from these frames. */
  function Accepted(last: string, fs: seq<Frame>): seq<Event>
    decreases |fs|
  {
    if fs == [] then []
    else if Stale(last, fs[0]) then Accepted(last, fs[1..])
    else [fs[0].event] + Accepted(fs[0].event.id, fs[1..])
  }

  function Frames(es: seq<Event>): seq<Frame>
  {
    seq(|es|, i requires 0 <= i < |es| => Ev(es[i]))
  }

  /** Accepting part by part. */
  lemma {:induction false} AcceptedAppend(last: string, fs: seq<Frame>, gs: seq<Frame>)
    ensures var a := Accepted(last, fs);
      Accepted(last, fs + gs) == a + Accepted(if a == [] then last else a[|a| - 1].id, gs)
    decreases |fs|
  {
    if fs == [] {
      assert fs + gs == gs;
    } else {
      assert (fs + gs)[1..] == fs[1..] + gs;
      AcceptedAppend(if Stale(last, fs[0]) then last else fs[0].event.id, fs[1..], gs);
    }
  }

  /** IDs rise strictly, starting above the last one seen. */
  ghost predicate Rises(last: string, es: seq<Event>)
    decreases |es|
  {
    es == [] || (Less(last, es[0].id) && Rises(es[0].id, es[1..]))
  }

  /** The exact condition under which the dedupe drops nothing. */
  lemma {:induction false} DedupeIsLosslessExactlyInOrder(last: string, es: seq<Event>)
    ensures Accepted(last, Frames(es)) == es <==> Rises(last, es)
    decreases |es|
  {
    if es != [] {
      var fs, rest := Frames(es), es[1..];
      assert fs[1..] == Frames(rest) && es == [es[0]] + rest;
      if Less(last, es[0].id) {
        assert Accepted(last, fs) == [es[0]] + Accepted(es[0].id, Frames(rest));
        DedupeIsLosslessExactlyInOrder(es[0].id, rest);
      } else {
        assert Accepted(last, fs) == Accepted(last, Frames(rest));
        AcceptedShrinks(last, Frames(rest));
      }
    }
  }

  lemma {:induction false} IncreasingRises(last: string, es: seq<Event>)
    requires Increasing(es) && (es != [] ==> Less(last, es[0].id))
    ensures Rises(last, es)
    decreases |es|
  {
    if es != [] {
      IncreasingRises(es[0].id, es[1..]);
    }
  }

  lemma {:induction false} AcceptedShrinks(last: string, fs: seq<Frame>)
    ensures |Accepted(last, fs)| <= |fs|
    ensures forall e :: e in Accepted(last, fs) ==> Ev(e) in fs && Less(last, e.id)
    decreases |fs|
  {
    if fs != [] {
      AcceptedShrinks(if Stale(last, fs[0]) then last else fs[0].event.id, fs[1..]);
      if !Stale(last, fs[0]) {
        forall e | e in Accepted(fs[0].event.id, fs[1..])
          ensures Less(last, e.id)
        {
          LessTransitive(last, fs[0].event.id, e.id);
        }
      }
    }
  }

  ghost predicate NoEvents(fs: seq<Frame>)
  {
    forall f :: f in fs ==> f.System?
  }

  lemma {:induction false} AcceptedOld(last: string, fs: seq<Frame>)
    requires forall f :: f in fs ==> Stale(last, f)
    ensures Accepted(last, fs) == []
    decreases |fs|
  {
    if fs != [] {
      AcceptedOld(last, fs[1..]);
    }
  }

  /** Conn.Send in a row: the queue takes what fits and drops the rest. */
  function Room(cfg: Config, c: Conn, n: nat): (k: nat)
    ensures k <= n
  {
    if |c.queue| >= cfg.sendBuf then 0 else if n <= cfg.sendBuf - |c.queue| then n else cfg.sendBuf - |c.queue|
  }

  lemma {:induction false} SendAllTakes(cfg: Config, c: Conn, es: seq<Event>)
    ensures SendAll(cfg, c, es) == c.(queue := c.queue + Frames(es[..Room(cfg, c, |es|)]))
    decreases |es|
  {
    var k := Room(cfg, c, |es|);
    if es == [] {
      assert c.queue + Frames(es[..k]) == c.queue;
    } else {
      SendAllTakes(cfg, Send(cfg, c, Ev(es[0])), es[1..]);
      if k == 0 {
        assert es[1..][..0] == es[..0];
      } else {
        assert Frames(es[..k]) == [Ev(es[0])] + Frames(es[1..][..k - 1]);
        assert c.queue + [Ev(es[0])] + Frames(es[1..][..k - 1]) == c.queue + Frames(es[..k]);
      }
    }
  }

  // ---------------------------------------------------- what can be replayed

  /** The part of a channel's history that a client at position p has missed can still be replayed. */
  ghost predicate Replayable(cfg: Config, h: seq<Event>, p: nat, now: nat)
    requires p <= |h|
  {
    |h| - p <= cfg.capacity && forall i :: p <= i < |h| ==> InWindow(h[i], now - cfg.maxAge)
  }

  /** What the server finds for a client whose last ID is given. */
  function Found(cfg: Config, h: seq<Event>, id: string, now: nat): seq<Event>
  {
    Since(Last(h, cfg.capacity), id, now - cfg.maxAge)
  }

  /** The replay, after dedupe, is exactly the missed part if and only if ring and age limit still hold it. */
  lemma ReplayCoversExactly(cfg: Config, h: seq<Event>, p: nat, now: nat)
    requires Increasing(h) && 0 < p <= |h|
    ensures Accepted(h[p - 1].id, Frames(Found(cfg, h, h[p - 1].id, now))) == h[p..] <==> Replayable(cfg, h, p, now)
  {
    if Replayable(cfg, h, p, now) {
      ReplayCovers(cfg, h, p, now);
    }
    if Accepted(h[p - 1].id, Frames(Found(cfg, h, h[p - 1].id, now))) == h[p..] {
      var found := Found(cfg, h, h[p - 1].id, now);
      assert found[..|found|] == found;
      FoundIsReplayable(cfg, h, p, now, |found|);
    }
  }

  lemma ReplayCovers(cfg: Config, h: seq<Event>, p: nat, now: nat)
    requires Increasing(h) && 0 < p <= |h| && Replayable(cfg, h, p, now)
    ensures Accepted(h[p - 1].id, Frames(Found(cfg, h, h[p - 1].id, now))) == h[p..]
  {
    var b := LastSplits(h, cfg.capacity, p);
    SplitInOrder(h, b, p);
    var seen := SinceSplits(h[b..p], h[p..], h[p - 1].id, now - cfg.maxAge);
    AcceptAfterSeen(h[p - 1].id, seen, h[p..]);
  }

  /** If some first part of what was found covers all that was missed, it is all of it, and it was replayable. */
  lemma FoundIsReplayable(cfg: Config, h: seq<Event>, p: nat, now: nat, k: nat)
    requires Increasing(h) && 0 < p <= |h| && k <= |Found(cfg, h, h[p - 1].id, now)|
    requires Accepted(h[p - 1].id, Frames(Found(cfg, h, h[p - 1].id, now)[..k])) == h[p..]
    ensures Replayable(cfg, h, p, now)
    ensures p < |h| ==> k == |Found(cfg, h, h[p - 1].id, now)|
  {
    var last, found := h[p - 1].id, Found(cfg, h, h[p - 1].id, now);
    AcceptedShrinks(last, Frames(found[..k]));
    forall i | p <= i < |h|
      ensures h[i] in found[..k] && InWindow(h[i], now - cfg.maxAge) && |h| - i <= cfg.capacity
    {
      assert h[p..][i - p] == h[i];
      FramesHold(found[..k], h[i]);
      FoundIsBuffered(cfg, h, last, now, i);
    }
    if p < |h| {
      assert h[p] in found[..k];
      FoundInHistory(cfg, h, last, now);
      AllFoundWithNewest(h, found, k);
    }
  }

  lemma AllFoundWithNewest(h: seq<Event>, found: seq<Event>, k: nat)
    requires Increasing(h) && Increasing(found) && forall e :: e in found ==> e in h
    requires h != [] && k <= |found| && h[|h| - 1] in found[..k]
    ensures k == |found|
  {
    var i :| 0 <= i < k && found[i] == h[|h| - 1];
    if k < |found| {
      NewestHasNoneAfter(h, found[k]);
    }
  }

  lemma FoundIsBuffered(cfg: Config, h: seq<Event>, id: string, now: nat, i: nat)
    requires Increasing(h) && i < |h| && h[i] in Found(cfg, h, id, now)
    ensures InWindow(h[i], now - cfg.maxAge) && |h| - i <= cfg.capacity
  {
    var buffered := Last(h, cfg.capacity);
    var b := |h| - |buffered|;
    assert buffered == h[b..];
    SuffixInOrder(h, b);
    SinceReplaysWhatWasMissed(buffered, id, now - cfg.maxAge);
    InSuffix(h, b, i);
  }

  lemma FramesHold(es: seq<Event>, e: Event)
    ensures Ev(e) in Frames(es) ==> e in es
  {
  }

  lemma InSuffix(h: seq<Event>, b: nat, i: nat)
    requires Increasing(h) && b <= |h| && i < |h|
    ensures h[i] in h[b..] ==> b <= i
  {
    if h[i] in h[b..] {
      var j :| b <= j < |h| && h[j] == h[i];
      LessIrreflexive(h[i].id);
    }
  }

  lemma NewestHasNoneAfter(h: seq<Event>, e: Event)
    requires Increasing(h) && e in h
    ensures !Less(h[|h| - 1].id, e.id)
  {
    LessIrreflexive(e.id);
    LessAsymmetric(h[|h| - 1].id, e.id);
  }

  lemma LastSplits(h: seq<Event>, k: nat, p: nat) returns (b: nat)
    requires p <= |h| && |h| - p <= k
    ensures b <= p && Last(h, k) == h[b..p] + h[p..]
  {
    b := |h| - |Last(h, k)|;
  }

  lemma SplitInOrder(h: seq<Event>, b: nat, p: nat)
    requires Increasing(h) && 0 < p <= |h| && b <= p
    ensures Increasing(h[p..])
    ensures forall e :: e in h[b..p] ==> !Less(h[p - 1].id, e.id)
    ensures forall e :: e in h[p..] ==> Less(h[p - 1].id, e.id) && e.id != h[p - 1].id
  {
    LessIrreflexive(h[p - 1].id);
    forall i | b <= i < p
      ensures !Less(h[p - 1].id, h[i].id)
    {
      LessIrreflexive(h[i].id);
      LessAsymmetric(h[p - 1].id, h[i].id);
    }
  }

  lemma AcceptAfterSeen(last: string, seen: seq<Event>, missed: seq<Event>)
    requires forall e :: e in seen ==> !Less(last, e.id)
    requires Increasing(missed) && forall e :: e in missed ==> Less(last, e.id)
    ensures Accepted(last, Frames(seen + missed)) == missed
  {
    assert Frames(seen + missed) == Frames(seen) + Frames(missed);
    AcceptedOld(last, Frames(seen));
    AcceptedAppend(last, Frames(seen), Frames(missed));
    IncreasingRises(last, missed);
    DedupeIsLosslessExactlyInOrder(last, missed);
  }

  /** Where the client of one channel stands on its current connection. */
  ghost predicate Resubscribing(w: World, c: string)
  {
    && w.link.Up? && w.link.conn.subs == {} && NoEvents(w.link.conn.wire + w.link.conn.queue)
    && w.link.conn.inbox == [Subscribe(c)] + if w.client.last != "" then [Replay(w.client.last)] else []
  }

  ghost predicate AwaitingReplay(w: World, c: string)
  {
    && w.link.Up? && w.link.conn.subs == {c} && NoEvents(w.link.conn.wire + w.link.conn.queue)
    && w.client.last != "" && w.link.conn.inbox == [Replay(w.client.last)]
  }

  ghost predicate Live(w: World, c: string)
  {
    w.link.Up? && w.link.conn.subs == {c} && w.link.conn.inbox == []
  }

  /** What the client has dispatched or, on a live connection, is still to dispatch. */
  ghost function Delivered(w: World, c: string): seq<Event>
  {
    w.client.log + if Live(w, c) then Accepted(w.client.last, w.link.conn.wire + w.link.conn.queue) else []
  }

  /** A contiguous piece of the history; all the rest of it on a live connection. */
  ghost predicate NoGap(w: World, c: string, f: nat)
  {
    var h, d := History(w, c), Delivered(w, c);
    && f + |d| <= |h| && d == h[f..f + |d|]
    && (Live(w, c) ==> f + |d| == |h|)
  }

  ghost predicate ResumeInvariant(w: World, c: string)
  {
    && OrderedInvariant(w)
    && OnTrack(w, c)
  }

  /** The client follows the channel, on a connection in one of its stages, and has no gap. */
  ghost predicate OnTrack(w: World, c: string)
  {
    && w.client.channels == [c]
    && (w.link.Down? || Resubscribing(w, c) || AwaitingReplay(w, c) || Live(w, c))
    && GapFree(w, c)
  }

  ghost predicate GapFree(w: World, c: string)
  {
    exists f: nat :: NoGap(w, c, f)
  }

  /** A replay about to be served brings all that is missing: nothing is, or it can be replayed and queued. */
  ghost predicate Recovers(cfg: Config, w: World, c: string, now: nat)
    requires w.link.Up?
  {
    var h, last := History(w, c), w.client.last;
    forall i :: 0 <= i < |h| - 1 && h[i].id == last ==>
      Replayable(cfg, h, i + 1, now) && |w.link.conn.queue| + |Found(cfg, h, last, now)| <= cfg.sendBuf
  }

  /**
   The hypotheses on a step, for one channel. A live broadcast finds room in the
   send queue (or the client has seen nothing yet); one between a subscription and
   its replay does not get ahead of the replay; and the replay recovers.
   */
  ghost predicate Gentle(cfg: Config, w: World, c: string, s: Step)
  {
    match s
    case Join(_) => false
    case Broadcast(channel, _) =>
      channel == c && w.link.Up? && c in w.link.conn.subs ==>
        if w.link.conn.inbox == [] then |w.link.conn.queue| < cfg.sendBuf || Delivered(w, c) == []
        else |w.link.conn.queue| >= cfg.sendBuf
    case Serve(now, _) =>
      w.link.Up? && w.link.conn.inbox != [] && w.link.conn.inbox[0].Replay? ==> Recovers(cfg, w, c, now)
    case _ => true
  }

  ghost predicate GentleRun(cfg: Config, w: World, c: string, steps: seq<Step>)
    requires IsRun(cfg, w, steps)
    decreases |steps|
  {
    steps == [] || (Gentle(cfg, w, c, steps[0]) && GentleRun(cfg, Next(cfg, w, steps[0]), c, steps[1..]))
  }

  lemma LogEnds(w: World, c: string, f: nat)
    requires ClientOk(w) && NoGap(w, c, f) && w.client.log != []
    ensures var p := f + |w.client.log|;
      p <= |History(w, c)| && History(w, c)[p - 1].id == w.client.last && History(w, c)[f] == w.client.log[0]
  {
    var h, d, n := History(w, c), Delivered(w, c), |w.client.log|;
    assert d[n - 1] == w.client.log[n - 1] && d[0] == w.client.log[0];
    assert h[f..f + |d|][n - 1] == h[f + n - 1];
  }

  /** A broadcast on a live channel is appended to what will be dispatched. */
  lemma GapFreeBroadcast(cfg: Config, w: World, c: string, now: nat, f: nat)
    requires OrderedInvariant(w) && now >= w.millis && InWidth(now, w.counter + 2) && NoGap(w, c, f)
    requires w.link.Down? || Resubscribing(w, c) || (Live(w, c) && |w.link.conn.queue| < cfg.sendBuf)
    ensures NoGap(Next(cfg, w, Broadcast(c, now)), c, f)
  {
    var w', e, h := Next(cfg, w, Broadcast(c, now)), NewEvent(w, c, now), History(w, c);
    assert History(w', c) == h + [e];
    if Live(w, c) {
      DeliveredGrows(cfg, w, c, now);
    } else {
      assert Delivered(w', c) == Delivered(w, c);
    }
  }

  lemma DeliveredGrows(cfg: Config, w: World, c: string, now: nat)
    requires OrderedInvariant(w) && now >= w.millis && InWidth(now, w.counter + 2)
    requires Live(w, c) && |w.link.conn.queue| < cfg.sendBuf
    ensures Delivered(Next(cfg, w, Broadcast(c, now)), c) == Delivered(w, c) + [NewEvent(w, c, now)]
  {
    var w', e, conn := Next(cfg, w, Broadcast(c, now)), NewEvent(w, c, now), w.link.conn;
    var pipe := conn.wire + conn.queue;
    NewEventIsNewest(w, c, now);
    assert w'.link.conn.wire + w'.link.conn.queue == pipe + [Ev(e)];
    forall f | f in pipe
      ensures FrameOk(w, f)
    {
      assert f in conn.wire || f in conn.queue;
    }
    assert w.client.log != [] ==> w.client.log[|w.client.log| - 1] in w.client.log;
    AcceptNewest(w.client.last, pipe, e);
    Assoc(w.client.log, Accepted(w.client.last, pipe), [e]);
  }

  lemma AcceptNewest(last: string, pipe: seq<Frame>, e: Event)
    requires Less(last, e.id) && forall f :: f in pipe ==> f.System? || Less(f.event.id, e.id)
    ensures Accepted(last, pipe + [Ev(e)]) == Accepted(last, pipe) + [e]
  {
    AcceptedAppend(last, pipe, [Ev(e)]);
    AcceptedShrinks(last, pipe);
    var a := Accepted(last, pipe);
    assert a != [] ==> Ev(a[|a| - 1]) in pipe;
  }

  // ----------------------------------------------------- exact conditions

  /** On a live connection the log stays gap-free exactly when what is still to come is the rest of the history. */
  lemma LiveGapFreeExactly(w: World, c: string, a: seq<Event>, f: nat)
    requires Live(w, c) && Increasing(History(w, c)) && Delivered(w, c) == w.client.log + a
    requires w.client.log != [] && f + |w.client.log| <= |History(w, c)|
    requires w.client.log == History(w, c)[f..f + |w.client.log|]
    ensures GapFree(w, c) <==> a == History(w, c)[f + |w.client.log|..]
  {
    var h, p := History(w, c), f + |w.client.log|;
    if a == h[p..] {
      JoinPieces(h, f, p);
      assert NoGap(w, c, f);
    }
    if g: nat :| NoGap(w, c, g) {
      RestFollows(w, c, a, f, g);
    }
  }

  lemma RestFollows(w: World, c: string, a: seq<Event>, f: nat, g: nat)
    requires Live(w, c) && Increasing(History(w, c)) && Delivered(w, c) == w.client.log + a
    requires w.client.log != [] && f + |w.client.log| <= |History(w, c)|
    requires w.client.log == History(w, c)[f..f + |w.client.log|] && NoGap(w, c, g)
    ensures a == History(w, c)[f + |w.client.log|..]
  {
    assert w.client.log + a == History(w, c)[g..];
    TailIsUnique(History(w, c), w.client.log, a, f, g);
  }

  lemma TailIsUnique(h: seq<Event>, log: seq<Event>, a: seq<Event>, f: nat, g: nat)
    requires Increasing(h) && log != [] && f + |log| <= |h| && g <= |h|
    requires log == h[f..f + |log|] && log + a == h[g..]
    ensures a == h[f + |log|..]
  {
    assert h[g] == h[g..][0] == (log + a)[0] == log[0] == h[f];
    SamePosition(h, f, g);
    assert (log + a)[|log|..] == a && h[f..][|log|..] == h[f + |log|..];
  }

  lemma SamePosition(h: seq<Event>, i: nat, j: nat)
    requires Increasing(h) && i < |h| && j < |h| && h[i] == h[j]
    ensures i == j
  {
    LessIrreflexive(h[i].id);
  }

  /** A live broadcast leaves no gap exactly when the send queue has room, or nothing was delivered before. */
  lemma BroadcastExactly(cfg: Config, w: World, c: string, now: nat, f: nat)
    requires OrderedInvariant(w) && Live(w, c) && NoGap(w, c, f)
    requires now >= w.millis && InWidth(now, w.counter + 2)
    ensures GapFree(Next(cfg, w, Broadcast(c, now)), c) <==>
            |w.link.conn.queue| < cfg.sendBuf || Delivered(w, c) == []
  {
    var w', h, d := Next(cfg, w, Broadcast(c, now)), History(w, c), Delivered(w, c);
    var e := NewEvent(w, c, now);
    assert History(w', c) == h + [e];
    if |w.link.conn.queue| < cfg.sendBuf {
      GapFreeBroadcast(cfg, w, c, now, f);
    } else {
      assert w'.link == w.link && Delivered(w', c) == d;
      if d == [] {
        assert NoGap(w', c, |h| + 1);
      } else if g: nat :| NoGap(w', c, g) {
        HistoryOfBroadcast(cfg, w, c, now);
        assert d[0] == h[f] == (h + [e])[f] && d[0] == (h + [e])[g];
        SamePosition(h + [e], f, g);
      }
    }
  }

  /** The part of a replay that the send queue takes. */
  function Taken(cfg: Config, w: World, c: string, now: nat): seq<Event>
    requires w.link.Up?
  {
    var found := Found(cfg, History(w, c), w.client.last, now);
    found[..Room(cfg, w.link.conn, |found|)]
  }

  function Replayed(cfg: Config, w: World, c: string, now: nat): World
    requires w.link.Up?
  {
    w.(link := Up(w.link.conn.(inbox := [], queue := w.link.conn.queue + Frames(Taken(cfg, w, c, now)))))
  }

  /** Serving a replay queues what was found, as far as it fits. */
  lemma ReplayQueues(cfg: Config, w: World, c: string, s: Step)
    requires w.link.Up? && w.link.conn.subs == {c} && w.link.conn.inbox == [Replay(w.client.last)]
    requires s.Serve? && Enabled(w, s)
    ensures Next(cfg, w, s) == Replayed(cfg, w, c, s.now)
  {
    OneChannelOrder(s.order, c);
    var conn, id := w.link.conn.(inbox := []), w.client.last;
    var found := Found(cfg, History(w, c), id, s.now);
    assert w.link.conn.inbox[1..] == [];
    SendAllTakes(cfg, conn, found);
    var none: seq<string> := [];
    assert s.order[1..] == none;
    assert ReplayMissed(cfg, w.history, SendAll(cfg, conn, found), id, s.now, none) == SendAll(cfg, conn, found);
    assert ReplayMissed(cfg, w.history, conn, id, s.now, s.order) == SendAll(cfg, conn, found);
  }

  /** The replay closes the gap exactly when nothing is missing, or all of it can be replayed and queued. */
  lemma ReplayExactly(cfg: Config, w: World, c: string, s: Step, f: nat)
    requires OrderedInvariant(w) && AwaitingReplay(w, c) && NoGap(w, c, f)
    requires s.Serve? && Enabled(w, s)
    ensures Live(Next(cfg, w, s), c) && Next(cfg, w, s).client == w.client
    ensures GapFree(Next(cfg, w, s), c) <==> Recovers(cfg, w, c, s.now)
  {
    LogEnds(w, c, f);
    LogIsPiece(w, c, f);
    ReplayQueues(cfg, w, c, s);
    AfterReplay(cfg, w, c, s.now, f);
  }

  /** Once the replay is queued, the log is gap-free exactly when the client will accept all that was missing. */
  lemma AfterReplay(cfg: Config, w: World, c: string, now: nat, f: nat)
    requires AwaitingReplay(w, c) && Increasing(History(w, c))
    requires LogAt(w, c, f)
    ensures Live(Replayed(cfg, w, c, now), c)
    ensures GapFree(Replayed(cfg, w, c, now), c) <==> Recovers(cfg, w, c, now)
  {
    var w', took := Replayed(cfg, w, c, now), Frames(Taken(cfg, w, c, now));
    AcceptAfterSystem(w.client.last, w.link.conn.wire, w.link.conn.queue, took);
    assert History(w', c) == History(w, c);
    LiveGapFreeExactly(w', c, Accepted(w.client.last, took), f);
    RecoversExactly(cfg, w, c, now, f + |w.client.log|);
  }

  /** The log is the piece of the history from f on, and ends with the last ID. */
  ghost predicate LogAt(w: World, c: string, f: nat)
  {
    var h, log := History(w, c), w.client.log;
    && log != [] && f + |log| <= |h| && log == h[f..f + |log|] && h[f + |log| - 1].id == w.client.last
  }

  lemma RecoversExactly(cfg: Config, w: World, c: string, now: nat, p: nat)
    requires w.link.Up? && Increasing(History(w, c))
    requires 0 < p <= |History(w, c)| && History(w, c)[p - 1].id == w.client.last
    ensures Accepted(w.client.last, Frames(Taken(cfg, w, c, now))) == History(w, c)[p..] <==> Recovers(cfg, w, c, now)
  {
    RecoversAt(cfg, w, c, now, p);
    TakenCoversExactly(cfg, History(w, c), p, now, w.link.conn);
  }

  /** What the queue takes of a replay covers all that was missed exactly when the replay recovers. */
  lemma TakenCoversExactly(cfg: Config, h: seq<Event>, p: nat, now: nat, conn: Conn)
    requires Increasing(h) && 0 < p <= |h|
    ensures var found := Found(cfg, h, h[p - 1].id, now);
      Accepted(h[p - 1].id, Frames(found[..Room(cfg, conn, |found|)])) == h[p..] <==>
      p == |h| || (Replayable(cfg, h, p, now) && |conn.queue| + |found| <= cfg.sendBuf)
  {
    var found := Found(cfg, h, h[p - 1].id, now);
    var k := Room(cfg, conn, |found|);
    if p == |h| {
      NothingNewer(cfg, h, now, k);
    } else {
      if Replayable(cfg, h, p, now) && |conn.queue| + |found| <= cfg.sendBuf {
        assert found[..k] == found;
        ReplayCovers(cfg, h, p, now);
      }
      if Accepted(h[p - 1].id, Frames(found[..k])) == h[p..] {
        FoundIsReplayable(cfg, h, p, now, k);
      }
    }
  }

  lemma RecoversAt(cfg: Config, w: World, c: string, now: nat, p: nat)
    requires w.link.Up? && Increasing(History(w, c))
    requires 0 < p <= |History(w, c)| && History(w, c)[p - 1].id == w.client.last
    ensures Recovers(cfg, w, c, now) <==>
            p == |History(w, c)|
            || (&& Replayable(cfg, History(w, c), p, now)
                && |w.link.conn.queue| + |Found(cfg, History(w, c), w.client.last, now)| <= cfg.sendBuf)
  {
    var h := History(w, c);
    forall i | 0 <= i < |h| && h[i].id == w.client.last
      ensures i == p - 1
    {
      LessIrreflexive(h[i].id);
    }
  }

  lemma NothingNewer(cfg: Config, h: seq<Event>, now: nat, k: nat)
    requires Increasing(h) && h != []
    requires k <= |Found(cfg, h, h[|h| - 1].id, now)|
    ensures Accepted(h[|h| - 1].id, Frames(Found(cfg, h, h[|h| - 1].id, now)[..k])) == []
  {
    var found, last := Found(cfg, h, h[|h| - 1].id, now), h[|h| - 1].id;
    FoundInHistory(cfg, h, last, now);
    forall f | f in Frames(found[..k])
      ensures Stale(last, f)
    {
      assert f.event in found;
      NewestHasNoneAfter(h, f.event);
    }
    AcceptedOld(last, Frames(found[..k]));
  }

  lemma FoundInHistory(cfg: Config, h: seq<Event>, id: string, now: nat)
    requires Increasing(h)
    ensures Increasing(Found(cfg, h, id, now))
    ensures forall e :: e in Found(cfg, h, id, now) ==> e in h
  {
    var b := Last(h, cfg.capacity);
    assert b == h[|h| - |b|..];
    SuffixInOrder(h, |h| - |b|);
    SinceReplaysWhatWasMissed(b, id, now - cfg.maxAge);
  }

  lemma LogIsPiece(w: World, c: string, f: nat)
    requires NoGap(w, c, f)
    ensures f + |w.client.log| <= |History(w, c)| && w.client.log == History(w, c)[f..f + |w.client.log|]
  {
    var n, d, h := |w.client.log|, Delivered(w, c), History(w, c);
    assert d[..n] == w.client.log;
    PrefixOfPiece(h, f, |d|, n);
  }

  lemma PrefixOfPiece(h: seq<Event>, f: nat, d: nat, n: nat)
    requires n <= d && f + d <= |h|
    ensures h[f..f + d][..n] == h[f..f + n]
  {
  }

  lemma AcceptAfterSystem(last: string, wire: seq<Frame>, queue: seq<Frame>, fs: seq<Frame>)
    requires NoEvents(wire + queue)
    ensures Accepted(last, wire + (queue + fs)) == Accepted(last, fs)
  {
    assert wire + (queue + fs) == (wire + queue) + fs;
    AcceptedOld(last, wire + queue);
    AcceptedAppend(last, wire + queue, fs);
  }

  lemma JoinPieces(h: seq<Event>, f: nat, p: nat)
    requires f <= p <= |h|
    ensures h[f..p] + h[p..] == h[f..]
  {
  }

  lemma OneChannelOrder(order: seq<string>, c: string)
    requires (set x | x in order) == {c} && |order| == 1
    ensures order == [c]
  {
    assert order[0] in order;
  }

  lemma AcceptedHead(c: Client, fs: seq<Frame>)
    requires fs != []
    ensures var d := OnMessage(c, fs[0]);
      c.log + Accepted(c.last, fs) == d.log + Accepted(d.last, fs[1..])
  {
    if Stale(c.last, fs[0]) {
      assert Accepted(c.last, fs) == Accepted(c.last, fs[1..]);
    } else {
      var e, rest := fs[0].event, Accepted(fs[0].event.id, fs[1..]);
      assert Accepted(c.last, fs) == [e] + rest;
      Assoc(c.log, [e], rest);
    }
  }

  lemma GapFreeReceive(cfg: Config, w: World, c: string, f: nat)
    requires w.link.Up? && w.link.conn.wire != [] && NoGap(w, c, f)
    requires Resubscribing(w, c) || AwaitingReplay(w, c) || Live(w, c)
    ensures var w' := Next(cfg, w, Receive);
      NoGap(w', c, f) && (Resubscribing(w', c) || AwaitingReplay(w', c) || Live(w', c))
  {
    var w' := Next(cfg, w, Receive);
    var pipe := w.link.conn.wire + w.link.conn.queue;
    assert w'.link.conn.wire + w'.link.conn.queue == pipe[1..];
    assert pipe[0] == w.link.conn.wire[0] && pipe[0] in pipe;
    AcceptedHead(w.client, pipe);
    assert History(w', c) == History(w, c);
  }

  lemma GapFreeWrite(cfg: Config, w: World, c: string, f: nat)
    requires w.link.Up? && w.link.conn.queue != [] && NoGap(w, c, f)
    requires Resubscribing(w, c) || AwaitingReplay(w, c) || Live(w, c)
    ensures var w' := Next(cfg, w, Write);
      NoGap(w', c, f) && (Resubscribing(w', c) || AwaitingReplay(w', c) || Live(w', c))
  {
    var conn, w' := w.link.conn, Next(cfg, w, Write);
    assert conn.wire + [conn.queue[0]] + conn.queue[1..] == conn.wire + conn.queue;
    assert History(w', c) == History(w, c);
  }

  /** A step keeps the client's log free of gaps exactly when it meets the hypotheses. */
  lemma GapFreeStepExactly(cfg: Config, w: World, c: string, s: Step)
    requires ResumeInvariant(w, c) && Enabled(w, s) && Fits(Next(cfg, w, s))
    ensures ResumeInvariant(Next(cfg, w, s), c) <==> Gentle(cfg, w, c, s)
  {
    OrderedStep(cfg, w, s);
    var f: nat :| NoGap(w, c, f);
    if s.Broadcast? {
      GapFreeBroadcastStep(cfg, w, c, s.channel, s.now, f);
    } else if s.Serve? {
      GapFreeServe(cfg, w, c, s, f);
    } else {
      GapFreeOtherStep(cfg, w, c, s, f);
    }
  }

  lemma GapFreeBroadcastStep(cfg: Config, w: World, c: string, channel: string, now: nat, f: nat)
    requires ResumeInvariant(w, c) && NoGap(w, c, f) && now >= w.millis && InWidth(now, w.counter + 2)
    ensures OnTrack(Next(cfg, w, Broadcast(channel, now)), c) <==> Gentle(cfg, w, c, Broadcast(channel, now))
  {
    if channel != c {
      GapFreeElsewhere(cfg, w, c, channel, now, f);
    } else if Live(w, c) {
      BroadcastExactly(cfg, w, c, now, f);
    } else if AwaitingReplay(w, c) {
      BroadcastBeforeReplay(cfg, w, c, now, f);
    } else {
      GapFreeBroadcast(cfg, w, c, now, f);
    }
  }

  lemma GapFreeOtherStep(cfg: Config, w: World, c: string, s: Step, f: nat)
    requires ResumeInvariant(w, c) && NoGap(w, c, f) && Enabled(w, s) && !s.Broadcast? && !s.Serve?
    ensures OnTrack(Next(cfg, w, s), c) <==> Gentle(cfg, w, c, s)
  {
    match s
    case Open =>
      GapFreeOpen(cfg, w, c, f);
    case Write =>
      GapFreeWrite(cfg, w, c, f);
    case Receive =>
      GapFreeReceive(cfg, w, c, f);
    case Close =>
      CloseKeepsPrefix(w, Next(cfg, w, s), c, f);
    case Join(channel) =>
      assert (w.client.channels + [channel])[1] == channel;
  }

  /** Between subscription and replay a broadcast keeps to the shape only by being dropped. */
  lemma BroadcastBeforeReplay(cfg: Config, w: World, c: string, now: nat, f: nat)
    requires AwaitingReplay(w, c) && now >= w.millis && NoGap(w, c, f)
    ensures var w' := Next(cfg, w, Broadcast(c, now));
      if |w.link.conn.queue| >= cfg.sendBuf then AwaitingReplay(w', c) && GapFree(w', c)
      else !w'.link.Down? && !Resubscribing(w', c) && !AwaitingReplay(w', c) && !Live(w', c)
  {
    var w', h, e := Next(cfg, w, Broadcast(c, now)), History(w, c), NewEvent(w, c, now);
    assert History(w', c) == h + [e];
    if |w.link.conn.queue| >= cfg.sendBuf {
      assert Delivered(w', c) == Delivered(w, c);
      assert NoGap(w', c, f);
    } else {
      var conn := w'.link.conn;
      assert conn.queue[|conn.queue| - 1] == Ev(e);
      assert Ev(e) in conn.wire + conn.queue;
    }
  }

  lemma GapFreeElsewhere(cfg: Config, w: World, c: string, channel: string, now: nat, f: nat)
    requires channel != c && now >= w.millis && NoGap(w, c, f)
    requires w.link.Down? || Resubscribing(w, c) || AwaitingReplay(w, c) || Live(w, c)
    ensures var w' := Next(cfg, w, Broadcast(channel, now));
      NoGap(w', c, f) && w'.link == w.link && w'.client == w.client
  {
    var w' := Next(cfg, w, Broadcast(channel, now));
    assert History(w', c) == History(w, c);
  }

  lemma GapFreeOpen(cfg: Config, w: World, c: string, f: nat)
    requires w.link.Down? && w.client.channels == [c] && NoGap(w, c, f)
    ensures var w' := Next(cfg, w, Open); Resubscribing(w', c) && NoGap(w', c, f)
  {
    var w' := Next(cfg, w, Open);
    assert Subscriptions([c]) == [Subscribe(c)] + Subscriptions([c][1..]) == [Subscribe(c)];
    assert History(w', c) == History(w, c);
  }

  lemma GapFreeServe(cfg: Config, w: World, c: string, s: Step, f: nat)
    requires ResumeInvariant(w, c) && NoGap(w, c, f) && s.Serve? && Enabled(w, s)
    ensures OnTrack(Next(cfg, w, s), c) <==> Gentle(cfg, w, c, s)
  {
    if Resubscribing(w, c) {
      NothingSeen(w);
      GapFreeSubscribe(cfg, w, c, s, f);
    } else {
      ReplayExactly(cfg, w, c, s, f);
    }
  }

  lemma NothingSeen(w: World)
    requires ClientOk(w)
    ensures w.client.last == "" ==> w.client.log == []
  {
  }

  lemma GapFreeSubscribe(cfg: Config, w: World, c: string, s: Step, f: nat)
    requires NoGap(w, c, f) && s.Serve? && Enabled(w, s) && Resubscribing(w, c)
    requires w.client.last == "" ==> w.client.log == []
    ensures var w' := Next(cfg, w, s);
      (AwaitingReplay(w', c) || Live(w', c)) && GapFree(w', c) && w'.client == w.client
  {
    var w' := Next(cfg, w, s);
    assert History(w', c) == History(w, c);
    var pipe := w'.link.conn.wire + w'.link.conn.queue;
    assert NoEvents(pipe);
    if w.client.last != "" {
      assert AwaitingReplay(w', c);
      assert NoGap(w', c, f);
    } else {
      AcceptedOld("", pipe);
      assert w.client.log == [];
      assert Live(w', c) && Delivered(w', c) == [];
      assert NoGap(w', c, |History(w, c)|);
    }
  }

  lemma CloseKeepsPrefix(w: World, w': World, c: string, f: nat)
    requires NoGap(w, c, f) && w' == w.(link := Down)
    ensures NoGap(w', c, f)
  {
    var n, d := |w.client.log|, Delivered(w, c);
    assert History(w', c) == History(w, c);
    assert d[..n] == w.client.log == Delivered(w', c);
    PrefixOfPiece(History(w, c), f, |d|, n);
  }

  lemma {:induction false} GapFreeRun(cfg: Config, w: World, c: string, steps: seq<Step>)
    requires ResumeInvariant(w, c) && IsRun(cfg, w, steps) && GentleRun(cfg, w, c, steps)
    requires Fits(Run(cfg, w, steps))
    ensures ResumeInvariant(Run(cfg, w, steps), c)
    decreases |steps|
  {
    if steps != [] {
      FitsBefore(cfg, Next(cfg, w, steps[0]), steps[1..]);
      GapFreeStepExactly(cfg, w, c, steps[0]);
      GapFreeRun(cfg, Next(cfg, w, steps[0]), c, steps[1..]);
    }
  }

  /** The log is the published log from position f on, without gaps; all of it once drained. */
  ghost predicate LoggedFrom(w: World, c: string, f: nat)
  {
    var log, h := w.client.log, History(w, c);
    && f + |log| <= |h| && log == h[f..f + |log|]
    && (Live(w, c) && NoEvents(w.link.conn.wire + w.link.conn.queue) ==> log == h[f..])
  }

  /**
   Resume loses nothing: while clock and counter fit the printed IDs, and after any
   sequence of disconnects and resumes under the hypotheses, the dispatched log is a
   contiguous piece of the published one; and once the live connection has drained,
   it is everything from its first event on.
   */
  lemma ResumeLosesNothing(cfg: Config, c: string, steps: seq<Step>)
    requires IsRun(cfg, Start([c]), steps) && GentleRun(cfg, Start([c]), c, steps)
    requires Fits(Run(cfg, Start([c]), steps))
    ensures exists f: nat :: LoggedFrom(Run(cfg, Start([c]), steps), c, f)
  {
    var w0 := Start([c]);
    assert NoGap(w0, c, 0);
    GapFreeRun(cfg, w0, c, steps);
    var w := Run(cfg, w0, steps);
    var f: nat :| NoGap(w, c, f);
    LogIsContiguous(w, c, f);
    assert LoggedFrom(w, c, f);
  }

  lemma LogIsContiguous(w: World, c: string, f: nat)
    requires NoGap(w, c, f)
    ensures LoggedFrom(w, c, f)
  {
    LogIsPiece(w, c, f);
    if Live(w, c) && NoEvents(w.link.conn.wire + w.link.conn.queue) {
      AcceptedOld(w.client.last, w.link.conn.wire + w.link.conn.queue);
      assert Delivered(w, c) == w.client.log;
    }
  }

  // ------------------------------------------- broadcasts before the replay

  /** Broadcasts on one channel, at the given times. */
  function Broadcasts(c: string, ats: seq<nat>): seq<Step>
  {
    if ats == [] then [] else [Broadcast(c, ats[0])] + Broadcasts(c, ats[1..])
  }

  /** Live events queue up behind what is already in the queue, ahead of the replay. */
  lemma {:induction false} LiveEventsQueueFirst(cfg: Config, w: World, c: string, ats: seq<nat>)
    returns (es: seq<Event>)
    requires OrderedInvariant(w) && w.link.Up? && c in w.link.conn.subs
    requires |w.link.conn.queue| + |ats| <= cfg.sendBuf
    requires IsRun(cfg, w, Broadcasts(c, ats)) && Fits(Run(cfg, w, Broadcasts(c, ats)))
    ensures var w1, conn := Run(cfg, w, Broadcasts(c, ats)), w.link.conn;
      && |es| == |ats| && OrderedInvariant(w1) && w1.client == w.client
      && History(w1, c) == History(w, c) + es
      && w1.link == Up(conn.(queue := conn.queue + Frames(es)))
    decreases |ats|
  {
    var conn, h := w.link.conn, History(w, c);
    if ats == [] {
      es := [];
      assert conn.queue + Frames(es) == conn.queue && h + es == h;
    } else {
      var e := NewEvent(w, c, ats[0]);
      var steps := Broadcasts(c, ats);
      assert steps[0] == Broadcast(c, ats[0]) && steps[1..] == Broadcasts(c, ats[1..]);
      var w' := Next(cfg, w, steps[0]);
      FitsBefore(cfg, w', steps[1..]);
      OrderedStep(cfg, w, steps[0]);
      var rest := LiveEventsQueueFirst(cfg, w', c, ats[1..]);
      es := [e] + rest;
      QueueGrows(h, conn.queue, e, rest);
    }
  }

  lemma QueueGrows(h: seq<Event>, queue: seq<Frame>, e: Event, rest: seq<Event>)
    ensures h + ([e] + rest) == h + [e] + rest
    ensures queue + Frames([e] + rest) == queue + [Ev(e)] + Frames(rest)
  {
  }

  /** The client takes the live events, after which all that the replay brings is stale. */
  lemma AcceptOvertaken(h: seq<Event>, es: seq<Event>, p: nat, conn: Conn, found: seq<Event>)
    requires Increasing(h + es) && es != [] && 0 < p <= |h| && NoEvents(conn.wire + conn.queue)
    requires forall e :: e in found ==> e in h + es
    ensures Accepted(h[p - 1].id, conn.wire + (conn.queue + Frames(es) + Frames(found))) == es
  {
    var last, newest := h[p - 1].id, es[|es| - 1].id;
    assert conn.queue + Frames(es) + Frames(found) == conn.queue + (Frames(es) + Frames(found));
    AcceptAfterSystem(last, conn.wire, conn.queue, Frames(es) + Frames(found));
    AcceptLive(h, es, p);
    AcceptedAppend(last, Frames(es), Frames(found));
    assert (h + es)[|h + es| - 1] == es[|es| - 1];
    forall f | f in Frames(found)
      ensures Stale(newest, f)
    {
      assert f.event in found;
      NewestHasNoneAfter(h + es, f.event);
    }
    AcceptedOld(newest, Frames(found));
  }

  lemma AcceptLive(h: seq<Event>, es: seq<Event>, p: nat)
    requires Increasing(h + es) && es != [] && 0 < p <= |h|
    ensures Accepted(h[p - 1].id, Frames(es)) == es
  {
    assert (h + es)[|h|..] == es && (h + es)[p - 1] == h[p - 1];
    SuffixInOrder(h + es, |h|);
    assert Less(h[p - 1].id, (h + es)[|h|].id);
    IncreasingRises(h[p - 1].id, es);
    DedupeIsLosslessExactlyInOrder(h[p - 1].id, es);
  }

  /**
   Any number of broadcasts between a subscription and its replay: the live events
   overtake the replay, the client will accept them and nothing else on this
   connection, and what it is to dispatch is free of gaps exactly when it had missed
   nothing before. Resume.OlderIsLostForGood says when what it had missed is lost.
   */
  lemma OvertakenExactly(cfg: Config, w: World, c: string, ats: seq<nat>, s: Step, f: nat)
    requires OrderedInvariant(w) && AwaitingReplay(w, c) && NoGap(w, c, f)
    requires ats != [] && |w.link.conn.queue| + |ats| <= cfg.sendBuf
    requires IsRun(cfg, w, Broadcasts(c, ats)) && Fits(Run(cfg, w, Broadcasts(c, ats)))
    requires s.Serve? && Enabled(Run(cfg, w, Broadcasts(c, ats)), s)
    ensures var w2 := Next(cfg, Run(cfg, w, Broadcasts(c, ats)), s); var p := f + |w.client.log|;
      && Live(w2, c)
      && (GapFree(w2, c) <==> p == |History(w, c)|)
      && p <= |History(w, c)|
      && forall i :: p <= i < |History(w, c)| ==> History(w, c)[i] !in Delivered(w2, c)
  {
    LogEnds(w, c, f);
    LogIsPiece(w, c, f);
    var es := LiveEventsQueueFirst(cfg, w, c, ats);
    OvertakenReplay(cfg, w, c, Run(cfg, w, Broadcasts(c, ats)), es, s, f);
  }

  /** If the link closes before a live event has reached the client, nothing is lost yet: a replay may still recover. */
  lemma OvertakenThenClosed(cfg: Config, w: World, c: string, ats: seq<nat>, s: Step, f: nat)
    requires ResumeInvariant(w, c) && AwaitingReplay(w, c) && NoGap(w, c, f)
    requires ats != [] && |w.link.conn.queue| + |ats| <= cfg.sendBuf
    requires IsRun(cfg, w, Broadcasts(c, ats)) && Fits(Run(cfg, w, Broadcasts(c, ats)))
    requires s.Serve? && Enabled(Run(cfg, w, Broadcasts(c, ats)), s)
    ensures var w2 := Next(cfg, Run(cfg, w, Broadcasts(c, ats)), s);
      w2.link.Up? && w2.client == w.client && ResumeInvariant(Next(cfg, w2, Close), c)
  {
    var w1 := Run(cfg, w, Broadcasts(c, ats));
    LogEnds(w, c, f);
    LogIsPiece(w, c, f);
    var es := LiveEventsQueueFirst(cfg, w, c, ats);
    ReplayQueues(cfg, w1, c, s);
    var w2 := Next(cfg, w1, s);
    OrderedStep(cfg, w1, s);
    OrderedStep(cfg, w2, Close);
    ClosedKeepsLog(w, c, Next(cfg, w2, Close), es, f);
  }

  lemma ClosedKeepsLog(w: World, c: string, closed: World, es: seq<Event>, f: nat)
    requires LogAt(w, c, f) && closed.link.Down? && closed.client == w.client
    requires History(closed, c) == History(w, c) + es
    ensures GapFree(closed, c)
  {
    PieceOfLonger(History(w, c), es, f, f + |w.client.log|);
    assert NoGap(closed, c, f);
  }

  /** The replay, served after the live events es were queued. */
  lemma OvertakenReplay(cfg: Config, w: World, c: string, w1: World, es: seq<Event>, s: Step, f: nat)
    requires AwaitingReplay(w, c) && es != [] && LogAt(w, c, f)
    requires OrderedInvariant(w1) && w1.client == w.client && History(w1, c) == History(w, c) + es
    requires w1.link == Up(w.link.conn.(queue := w.link.conn.queue + Frames(es)))
    requires s.Serve? && Enabled(w1, s)
    ensures var w2 := Next(cfg, w1, s); var p := f + |w.client.log|;
      && Live(w2, c)
      && (GapFree(w2, c) <==> p == |History(w, c)|)
      && forall i :: p <= i < |History(w, c)| ==> History(w, c)[i] !in Delivered(w2, c)
  {
    ReplayQueues(cfg, w1, c, s);
    DeliveredWhenOvertaken(cfg, w, c, w1, es, s.now, f);
    OvertakenGap(w, c, Next(cfg, w1, s), es, f);
  }

  lemma DeliveredWhenOvertaken(cfg: Config, w: World, c: string, w1: World, es: seq<Event>, now: nat, f: nat)
    requires AwaitingReplay(w, c) && es != [] && LogAt(w, c, f)
    requires w1.client == w.client && History(w1, c) == History(w, c) + es && Increasing(History(w, c) + es)
    requires w1.link == Up(w.link.conn.(queue := w.link.conn.queue + Frames(es)))
    ensures var w2 := Replayed(cfg, w1, c, now);
      Live(w2, c) && History(w2, c) == History(w, c) + es && Delivered(w2, c) == w.client.log + es
  {
    var all := History(w, c) + es;
    FoundInHistory(cfg, all, w.client.last, now);
    AcceptOvertaken(History(w, c), es, f + |w.client.log|, w.link.conn, Taken(cfg, w1, c, now));
    assert History(Replayed(cfg, w1, c, now), c) == all;
  }

  lemma OvertakenGap(w: World, c: string, w2: World, es: seq<Event>, f: nat)
    requires LogAt(w, c, f) && Live(w2, c) && w2.client == w.client
    requires History(w2, c) == History(w, c) + es && Increasing(History(w, c) + es)
    requires Delivered(w2, c) == w.client.log + es
    ensures var p := f + |w.client.log|;
      && (GapFree(w2, c) <==> p == |History(w, c)|)
      && forall i :: p <= i < |History(w, c)| ==> History(w, c)[i] !in Delivered(w2, c)
  {
    var h, p := History(w, c), f + |w.client.log|;
    PieceOfLonger(h, es, f, p);
    LiveGapFreeExactly(w2, c, es, f);
    MissedIsLost(h, es, f, p);
  }

  lemma PieceOfLonger(h: seq<Event>, es: seq<Event>, f: nat, p: nat)
    requires f <= p <= |h|
    ensures (h + es)[f..p] == h[f..p]
    ensures es == (h + es)[p..] <==> p == |h|
  {
    assert |(h + es)[p..]| == |h| - p + |es|;
    assert (h + es)[|h|..] == es;
  }

  lemma MissedIsLost(h: seq<Event>, es: seq<Event>, f: nat, p: nat)
    requires Increasing(h + es) && f <= p <= |h|
    ensures forall i :: p <= i < |h| ==> h[i] !in h[f..p] + es
  {
    forall i | p <= i < |h|
      ensures h[i] !in h[f..p] + es
    {
      NotAround(h, es, f, p, i);
    }
  }

  lemma NotAround(h: seq<Event>, es: seq<Event>, f: nat, p: nat, i: nat)
    requires Increasing(h + es) && f <= p <= i < |h|
    ensures h[i] !in h[f..p] + es
  {
    var all := h + es;
    assert all[i] == h[i];
    if h[i] in h[f..p] + es {
      var j :| 0 <= j < |h[f..p] + es| && (h[f..p] + es)[j] == h[i];
      var at := if j < p - f then f + j else |h| + (j - (p - f));
      assert all[at] == h[i];
      SamePosition(all, i, at);
    }
  }

  // --------------------------------------------------------- many channels

  /** What the replay finds, channel by channel, in the order in which it visits them. */
  function FoundInOrder(cfg: Config, history: map<string, seq<Event>>, id: string, now: nat, order: seq<string>)
    : seq<Event>
  {
    if order == [] then []
    else Found(cfg, Past(history, order[0]), id, now) + FoundInOrder(cfg, history, id, now, order[1..])
  }

  /** The events newer than an ID. */
  function Newer(es: seq<Event>, id: string): seq<Event>
  {
    if es == [] then []
    else (if Less(id, es[0].id) then [es[0]] else []) + Newer(es[1..], id)
  }

  lemma {:induction false} ReplayQueuesAll(
    cfg: Config, history: map<string, seq<Event>>, c: Conn, id: string, now: nat, order: seq<string>)
    requires |c.queue| + |FoundInOrder(cfg, history, id, now, order)| <= cfg.sendBuf
    ensures ReplayMissed(cfg, history, c, id, now, order) ==
            c.(queue := c.queue + Frames(FoundInOrder(cfg, history, id, now, order)))
    decreases |order|
  {
    var all := FoundInOrder(cfg, history, id, now, order);
    if order == [] {
      assert c.queue + Frames(all) == c.queue;
    } else {
      var found := Found(cfg, Past(history, order[0]), id, now);
      var rest := FoundInOrder(cfg, history, id, now, order[1..]);
      SendAllTakes(cfg, c, found);
      assert found[..|found|] == found;
      ReplayQueuesAll(cfg, history, SendAll(cfg, c, found), id, now, order[1..]);
      assert c.queue + Frames(found) + Frames(rest) == c.queue + Frames(all);
    }
  }

  /** Stale events of a replay make no difference to the client. */
  lemma {:induction false} OnlyNewerCount(last: string, es: seq<Event>, id: string)
    requires id == last || Less(id, last)
    ensures Accepted(last, Frames(es)) == Accepted(last, Frames(Newer(es, id)))
    decreases |es|
  {
    if es != [] {
      var e, rest := es[0], es[1..];
      assert Frames(es)[0] == Ev(e) && Frames(es)[1..] == Frames(rest);
      if Less(last, e.id) {
        if id != last {
          LessTransitive(id, last, e.id);
        }
        OnlyNewerCount(e.id, rest, id);
      } else {
        OnlyNewerCount(last, rest, id);
      }
      var kept := Newer(es, id);
      if Less(id, e.id) {
        assert Frames(kept)[0] == Ev(e) && kept[1..] == Newer(rest, id) && Frames(kept)[1..] == Frames(Newer(rest, id));
      } else {
        assert kept == Newer(rest, id);
      }
    }
  }

  /**
   A client of several channels shares one last ID among them. Replayed channel by
   channel, all that is new to it gets through exactly when the new events rise in
   the order in which the channels are visited.
   */
  lemma ManyChannelsExactly(cfg: Config, w: World, conn: Conn, now: nat, order: seq<string>)
    requires NoEvents(conn.wire + conn.queue)
    requires |conn.queue| + |FoundInOrder(cfg, w.history, w.client.last, now, order)| <= cfg.sendBuf
    ensures var d := ReplayMissed(cfg, w.history, conn, w.client.last, now, order);
      var unseen := Newer(FoundInOrder(cfg, w.history, w.client.last, now, order), w.client.last);
      Accepted(w.client.last, d.wire + d.queue) == unseen <==> Rises(w.client.last, unseen)
  {
    var last := w.client.last;
    var all := FoundInOrder(cfg, w.history, last, now, order);
    ReplayQueuesAll(cfg, w.history, conn, last, now, order);
    AcceptAfterSystem(last, conn.wire, conn.queue, Frames(all));
    OnlyNewerCount(last, all, last);
    DedupeIsLosslessExactlyInOrder(last, Newer(all, last));
  }
}
