/**
 Broadcasts as they really run: many at a time, each first taking its ID, then
 pushing to its channel's ring, then sending to the connection, with any other
 step in between and with clocks that may be read in any order.
 */
module Interleaved {
  import opened Seqs
  import opened Text
  import opened Events
  import opened EventIds
  import opened Resume
  import opened GapFree

  /** A broadcast under way. */
  datatype Pending = Pending(event: Event, pushed: bool)

  datatype Traffic = Traffic(world: World, pending: seq<Pending>)

  datatype Move =
    | Mint(channel: string, now: nat, n: nat)   // the kept call of newEventID, the n-th of all
    | Push(k: nat)                              // the event goes into the ring
    | Fan(k: nat)                               // pushToChannel, the last stage
    | Other(step: Step)                         // any other step of the protocol

  predicate CanMove(s: Traffic, m: Move)
  {
    match m
    case Mint(_, _, n) => n > s.world.counter
    case Push(k) => k < |s.pending| && !s.pending[k].pushed
    case Fan(k) => k < |s.pending| && s.pending[k].pushed
    case Other(step) => !step.Broadcast? && Enabled(s.world, step)
  }

  function Pushed(w: World, e: Event): World
  {
    w.(history := w.history[e.channel := History(w, e.channel) + [e]])
  }

  function Fanned(cfg: Config, w: World, e: Event): World
  {
    if w.link.Up? && e.channel in w.link.conn.subs then w.(link := Up(Send(cfg, w.link.conn, Ev(e)))) else w
  }

  function Moved(cfg: Config, s: Traffic, m: Move): Traffic
    requires CanMove(s, m)
  {
    match m
    case Mint(channel, now, n) =>
      var e := Event(EventId(now, n), channel, now / 1000);
      var clock := if now > s.world.millis then now else s.world.millis;
      Traffic(s.world.(millis := clock, counter := n), s.pending + [Pending(e, false)])
    case Push(k) =>
      var e := s.pending[k].event;
      Traffic(Pushed(s.world, e), s.pending[k := Pending(e, true)])
    case Fan(k) =>
      Traffic(Fanned(cfg, s.world, s.pending[k].event), s.pending[..k] + s.pending[k + 1..])
    case Other(step) =>
      s.(world := Next(cfg, s.world, step))
  }

  ghost predicate CanRun(cfg: Config, s: Traffic, moves: seq<Move>)
    decreases |moves|
  {
    moves == [] || (CanMove(s, moves[0]) && CanRun(cfg, Moved(cfg, s, moves[0]), moves[1..]))
  }

  ghost function AfterMoves(cfg: Config, s: Traffic, moves: seq<Move>): Traffic
    requires CanRun(cfg, s, moves)
    decreases |moves|
  {
    if moves == [] then s else AfterMoves(cfg, Moved(cfg, s, moves[0]), moves[1..])
  }

  // ---------------------------------------------------------------- safety

  /** What is about to be sent has been pushed. */
  ghost predicate PendingOk(s: Traffic)
  {
    forall i :: 0 <= i < |s.pending| && s.pending[i].pushed ==> Published(s.world, s.pending[i].event)
  }

  ghost predicate MoveInvariant(s: Traffic)
  {
    SafetyInvariant(s.world) && PendingOk(s)
  }

  lemma PushIsSafe(w: World, e: Event)
    requires SafetyInvariant(w)
    ensures SafetyInvariant(Pushed(w, e)) && Published(Pushed(w, e), e)
    ensures forall x :: Published(w, x) ==> Published(Pushed(w, e), x)
  {
    PushedOn(w, Pushed(w, e), e);
  }

  lemma FanIsSafe(cfg: Config, w: World, e: Event)
    requires SafetyInvariant(w) && Published(w, e)
    ensures SafetyInvariant(Fanned(cfg, w, e)) && Fanned(cfg, w, e).history == w.history
  {
    var w' := Fanned(cfg, w, e);
    assert forall c :: History(w', c) == History(w, c);
    if w.link.Up? {
      SentIsPublished(cfg, w.link.conn, w, e);
    }
  }

  lemma MintIsSafe(w: World, millis: nat, counter: nat)
    requires SafetyInvariant(w)
    ensures SafetyInvariant(w.(millis := millis, counter := counter))
  {
    assert forall c :: History(w.(millis := millis, counter := counter), c) == History(w, c);
  }

  lemma MoveIsSafe(cfg: Config, s: Traffic, m: Move)
    requires MoveInvariant(s) && CanMove(s, m)
    ensures MoveInvariant(Moved(cfg, s, m))
  {
    match m
    case Mint(_, _, n) =>
      MintIsSafe(s.world, Moved(cfg, s, m).world.millis, n);
    case Push(k) =>
      PushIsSafe(s.world, s.pending[k].event);
    case Fan(k) =>
      FanIsSafe(cfg, s.world, s.pending[k].event);
    case Other(step) =>
      SafetyStep(cfg, s.world, step);
      HistoryGrows(cfg, s.world, step);
  }

  lemma {:induction false} MovesAreSafe(cfg: Config, s: Traffic, moves: seq<Move>)
    requires MoveInvariant(s) && CanRun(cfg, s, moves)
    ensures MoveInvariant(AfterMoves(cfg, s, moves))
    decreases |moves|
  {
    if moves != [] {
      MoveIsSafe(cfg, s, moves[0]);
      MovesAreSafe(cfg, Moved(cfg, s, moves[0]), moves[1..]);
    }
  }

  /**
   However concurrent broadcasts interleave, with each other and with everything
   else, the client dispatches published events only, in strictly increasing ID
   order, none twice.
   */
  lemma SafeUnderInterleaving(cfg: Config, channels: seq<string>, moves: seq<Move>)
    requires CanRun(cfg, Traffic(Start(channels), []), moves)
    ensures var w := AfterMoves(cfg, Traffic(Start(channels), []), moves).world;
      Increasing(w.client.log) && forall e :: e in w.client.log ==> Published(w, e)
  {
    MovesAreSafe(cfg, Traffic(Start(channels), []), moves);
  }

  lemma ThreeMoves(cfg: Config, s: Traffic, moves: seq<Move>, s1: Traffic, s2: Traffic, s3: Traffic)
    requires |moves| == 3 && CanMove(s, moves[0]) && s1 == Moved(cfg, s, moves[0])
    requires CanMove(s1, moves[1]) && s2 == Moved(cfg, s1, moves[1])
    requires CanMove(s2, moves[2]) && s3 == Moved(cfg, s2, moves[2])
    ensures CanRun(cfg, s, moves) && AfterMoves(cfg, s, moves) == s3
  {
    var two, one, none := moves[1..], moves[2..], moves[3..];
    assert two[0] == moves[1] && two[1..] == one && one[0] == moves[2] && one[1..] == none && none == [];
    assert CanRun(cfg, s3, none) && AfterMoves(cfg, s3, none) == s3;
    assert CanRun(cfg, s2, one) && AfterMoves(cfg, s2, one) == s3;
    assert CanRun(cfg, s1, two) && AfterMoves(cfg, s1, two) == s3;
  }

  /** The moves of a broadcast that nothing interrupts. */
  function Atomic(s: Traffic, channel: string, now: nat): seq<Move>
  {
    [Mint(channel, now, s.world.counter + 2), Push(|s.pending|), Fan(|s.pending|)]
  }

  /** It is the one step of the atomic protocol. */
  lemma UninterruptedIsAtomic(cfg: Config, s: Traffic, channel: string, now: nat)
    requires now >= s.world.millis
    ensures CanRun(cfg, s, Atomic(s, channel, now))
    ensures AfterMoves(cfg, s, Atomic(s, channel, now)) ==
            s.(world := Next(cfg, s.world, Broadcast(channel, now)))
  {
    var moves, e := Atomic(s, channel, now), NewEvent(s.world, channel, now);
    var s1 := Moved(cfg, s, moves[0]);
    var s2 := Moved(cfg, s1, moves[1]);
    var s3 := Moved(cfg, s2, moves[2]);
    assert s2.pending == s.pending + [Pending(e, true)];
    assert s3.pending == s.pending;
    ThreeMoves(cfg, s, moves, s1, s2, s3);
    assert History(s1.world, channel) == History(s.world, channel);
    assert s3.world == Next(cfg, s.world, Broadcast(channel, now));
  }

  // ------------------------------------------------------ sends out of order

  /** Events sent on one channel, in the order in which their sends come about. */
  function FannedAll(cfg: Config, w: World, es: seq<Event>): World
    decreases |es|
  {
    if es == [] then w else FannedAll(cfg, Fanned(cfg, w, es[0]), es[1..])
  }

  lemma {:induction false} FannedAllQueue(cfg: Config, w: World, c: string, es: seq<Event>)
    requires w.link.Up? && c in w.link.conn.subs && |w.link.conn.queue| + |es| <= cfg.sendBuf
    requires forall e :: e in es ==> e.channel == c
    ensures FannedAll(cfg, w, es) == w.(link := Up(w.link.conn.(queue := w.link.conn.queue + Frames(es))))
    decreases |es|
  {
    var queue := w.link.conn.queue;
    if es == [] {
      assert queue + Frames(es) == queue;
    } else {
      assert es[0] in es && forall e :: e in es[1..] ==> e in es;
      FannedAllQueue(cfg, Fanned(cfg, w, es[0]), c, es[1..]);
      QueueGrows([], queue, es[0], es[1..]);
      assert [es[0]] + es[1..] == es;
    }
  }

  /** The ID after which the client will look, once it has read all that is on its way. */
  function LastSeen(last: string, fs: seq<Frame>): string
  {
    var a := Accepted(last, fs);
    if a == [] then last else a[|a| - 1].id
  }

  /**
   Concurrent sends on a live connection with room: all of them get through exactly
   when they come about in increasing ID order, above what is already on its way.
   */
  lemma ConcurrentSendsExactly(cfg: Config, w: World, c: string, es: seq<Event>)
    requires w.link.Up? && c in w.link.conn.subs && |w.link.conn.queue| + |es| <= cfg.sendBuf
    requires forall e :: e in es ==> e.channel == c
    ensures var pipe, last := w.link.conn.wire + w.link.conn.queue, w.client.last;
      var w' := FannedAll(cfg, w, es);
      && w'.link.Up? && w'.client == w.client
      && (Accepted(last, w'.link.conn.wire + w'.link.conn.queue) == Accepted(last, pipe) + es
          <==> Rises(LastSeen(last, pipe), es))
  {
    var conn, last := w.link.conn, w.client.last;
    var pipe := conn.wire + conn.queue;
    FannedAllQueue(cfg, w, c, es);
    Assoc(conn.wire, conn.queue, Frames(es));
    AcceptedAppend(last, pipe, Frames(es));
    DedupeIsLosslessExactlyInOrder(LastSeen(last, pipe), es);
    SamePrefix(Accepted(last, pipe), Accepted(LastSeen(last, pipe), Frames(es)), es);
  }

  lemma SamePrefix<T>(a: seq<T>, b: seq<T>, c: seq<T>)
    ensures a + b == a + c <==> b == c
  {
    if a + b == a + c {
      assert (a + b)[|a|..] == b && (a + c)[|a|..] == c;
    }
  }
}
