/**
 The reconnect-and-resume protocol between the realtime hub and one client:
 live broadcasts, a bounded send queue, disconnects that lose whatever is in
 flight, re-subscription followed by a replay, and the client's dedupe by one
 last event ID.
 */
module Resume {
  import opened Events
  import opened EventIds
  import opened Text

  /** Server settings: ring size per channel, replay age, send queue length. */
  datatype Config = Config(capacity: nat, maxAge: nat, sendBuf: nat)

  /** Server to client. System stands for acks and other frames without an ID. */
  datatype Frame = System | Ev(event: Event)

  /** Client to server. */
  datatype Request = Subscribe(channel: string) | Replay(id: string)

  /** One connection: requests not yet read, subscriptions, send queue, frames on the wire. */
  datatype Conn = Conn(inbox: seq<Request>, subs: set<string>, queue: seq<Frame>, wire: seq<Frame>)

  datatype Link = Down | Up(conn: Conn)

  /** The client: its channels, the last event ID it saw, and the events it dispatched. */
  datatype Client = Client(channels: seq<string>, last: string, log: seq<Event>)

  /** history is everything ever broadcast, per channel; the ring holds its last part. */
  datatype World = World(history: map<string, seq<Event>>, millis: nat, counter: nat, link: Link, client: Client)

  datatype Step =
    | Broadcast(channel: string, now: nat)       // Hub.Broadcast
    | Join(channel: string)                      // client: socket.channel(c).on(...)
    | Open                                       // client: ws.onopen
    | Serve(now: nat, order: seq<string>)        // Hub.dispatch of the next request
    | Write                                      // Conn.writeLoop
    | Receive                                    // client: onMessage
    | Close                                      // the connection is lost

  // ------------------------------------------------------------ the client

  /** No ID, or not strictly greater, as a string, than the last one seen. */
  predicate Stale(last: string, f: Frame)
  {
    f.System? || !Less(last, f.event.id)
  }

  /** onMessage's dedupe. */
  function OnMessage(c: Client, f: Frame): Client
  {
    if Stale(c.last, f) then c
    else c.(last := f.event.id, log := c.log + [f.event])
  }

  /** The requests sent on open: every channel again, then the replay if anything was seen. */
  function OnOpen(c: Client): seq<Request>
  {
    Subscriptions(c.channels) + if c.last != "" then [Replay(c.last)] else []
  }

  function Subscriptions(channels: seq<string>): seq<Request>
  {
    if channels == [] then [] else [Subscribe(channels[0])] + Subscriptions(channels[1..])
  }

  // ------------------------------------------------------------ the server

  /** Conn.Send: dropped when the queue is full. */
  function Send(cfg: Config, c: Conn, f: Frame): Conn
  {
    if |c.queue| < cfg.sendBuf then c.(queue := c.queue + [f]) else c
  }

  function SendAll(cfg: Config, c: Conn, es: seq<Event>): Conn
    decreases |es|
  {
    if es == [] then c else SendAll(cfg, Send(cfg, c, Ev(es[0])), es[1..])
  }

  function Past(history: map<string, seq<Event>>, channel: string): seq<Event>
  {
    if channel in history then history[channel] else []
  }

  function History(w: World, channel: string): seq<Event>
  {
    Past(w.history, channel)
  }

  /** Replay one channel: what its ring still holds after an event, if young enough. */
  function ReplayOne(
    cfg: Config, history: map<string, seq<Event>>, c: Conn, id: string, now: nat, channel: string): Conn
  {
    SendAll(cfg, c, Since(Last(Past(history, channel), cfg.capacity), id, now - cfg.maxAge))
  }

  /** Replay each subscribed channel in turn. */
  function ReplayMissed(
    cfg: Config, history: map<string, seq<Event>>, c: Conn, id: string, now: nat, order: seq<string>): Conn
    decreases |order|
  {
    if order == [] then c
    else ReplayMissed(cfg, history, ReplayOne(cfg, history, c, id, now, order[0]), id, now, order[1..])
  }

  /** The event a broadcast publishes: newEventID is called twice, the second ID stays. */
  function NewEvent(w: World, channel: string, now: nat): Event
  {
    Event(EventId(now, w.counter + 2), channel, now / 1000)
  }

  /** Which steps are possible: clocks do not run back, a replay visits each subscription once. */
  predicate Enabled(w: World, s: Step)
  {
    match s
    case Broadcast(_, now) => now >= w.millis
    case Join(channel) => channel !in w.client.channels
    case Open => w.link.Down?
    case Serve(now, order) =>
      && w.link.Up? && w.link.conn.inbox != [] && now >= w.millis
      && (set c | c in order) == w.link.conn.subs && |order| == |w.link.conn.subs|
    case Write => w.link.Up? && w.link.conn.queue != []
    case Receive => w.link.Up? && w.link.conn.wire != []
    case Close => w.link.Up?
  }

  function Next(cfg: Config, w: World, s: Step): World
    requires Enabled(w, s)
  {
    match s
    case Broadcast(channel, now) =>
      var e := NewEvent(w, channel, now);
      var link := if w.link.Up? && channel in w.link.conn.subs then Up(Send(cfg, w.link.conn, Ev(e))) else w.link;
      World(w.history[channel := History(w, channel) + [e]], now, w.counter + 2, link, w.client)
    case Join(channel) =>
      var link := if w.link.Up? then Up(w.link.conn.(inbox := w.link.conn.inbox + [Subscribe(channel)])) else Down;
      w.(link := link, client := w.client.(channels := w.client.channels + [channel]))
    case Open =>
      w.(link := Up(Conn(OnOpen(w.client), {}, [System], [])))
    case Serve(now, order) =>
      var c := w.link.conn.(inbox := w.link.conn.inbox[1..]);
      (match w.link.conn.inbox[0]
       case Subscribe(channel) => w.(link := Up(Send(cfg, c.(subs := c.subs + {channel}), System)))
       case Replay(id) => w.(link := Up(ReplayMissed(cfg, w.history, c, id, now, order))))
    case Write =>
      var c := w.link.conn;
      w.(link := Up(c.(queue := c.queue[1..], wire := c.wire + [c.queue[0]])))
    case Receive =>
      var c := w.link.conn;
      w.(link := Up(c.(wire := c.wire[1..])), client := OnMessage(w.client, c.wire[0]))
    case Close =>
      w.(link := Down)
  }

  function Start(channels: seq<string>): World
  {
    World(map[], 0, 0, Down, Client(channels, "", []))
  }

  ghost predicate IsRun(cfg: Config, w: World, steps: seq<Step>)
    decreases |steps|
  {
    steps == [] || (Enabled(w, steps[0]) && IsRun(cfg, Next(cfg, w, steps[0]), steps[1..]))
  }

  ghost function Run(cfg: Config, w: World, steps: seq<Step>): World
    requires IsRun(cfg, w, steps)
    decreases |steps|
  {
    if steps == [] then w else Run(cfg, Next(cfg, w, steps[0]), steps[1..])
  }

  // ---------------------------------------------------------------- safety

  /** Everything in flight or dispatched was broadcast on its channel. */
  ghost predicate Published(w: World, e: Event)
  {
    e in History(w, e.channel)
  }

  ghost predicate HistoryTagged(w: World)
  {
    forall c, e :: e in History(w, c) ==> e.channel == c
  }

  ghost predicate FrameOk(w: World, f: Frame)
  {
    f.Ev? ==> Published(w, f.event)
  }

  ghost predicate ConnOk(w: World, c: Conn)
  {
    (forall f :: f in c.queue ==> FrameOk(w, f)) && (forall f :: f in c.wire ==> FrameOk(w, f))
  }

  ghost predicate FlightOk(w: World)
  {
    w.link.Up? ==> ConnOk(w, w.link.conn)
  }

  ghost predicate ClientOk(w: World)
  {
    var c := w.client;
    && Increasing(c.log)
    && (forall e :: e in c.log ==> Published(w, e))
    && c.last == (if c.log == [] then "" else c.log[|c.log| - 1].id)
  }

  ghost predicate SafetyInvariant(w: World)
  {
    HistoryTagged(w) && FlightOk(w) && ClientOk(w)
  }

  lemma {:induction false} SendAllAdds(cfg: Config, c: Conn, es: seq<Event>)
    ensures var d := SendAll(cfg, c, es);
      && d.inbox == c.inbox && d.subs == c.subs && d.wire == c.wire && c.queue <= d.queue
      && (forall f :: f in d.queue ==> f in c.queue || (f.Ev? && f.event in es))
    decreases |es|
  {
    if es != [] {
      SendAllAdds(cfg, Send(cfg, c, Ev(es[0])), es[1..]);
    }
  }

  lemma {:induction false} ReplayAdds(cfg: Config, w: World, c: Conn, id: string, now: nat, order: seq<string>)
    requires HistoryTagged(w)
    ensures var d := ReplayMissed(cfg, w.history, c, id, now, order);
      && d.inbox == c.inbox && d.subs == c.subs && d.wire == c.wire && c.queue <= d.queue
      && (forall f :: f in d.queue ==> f in c.queue || FrameOk(w, f))
    decreases |order|
  {
    if order != [] {
      var buffered, cutoff := Last(History(w, order[0]), cfg.capacity), now - cfg.maxAge;
      var missed := Since(buffered, id, cutoff);
      MissedWasPublished(cfg, w, order[0], id, cutoff);
      SendAllAdds(cfg, c, missed);
      ReplayAdds(cfg, w, SendAll(cfg, c, missed), id, now, order[1..]);
    }
  }

  lemma MissedWasPublished(cfg: Config, w: World, channel: string, id: string, cutoff: int)
    requires HistoryTagged(w)
    ensures forall e :: e in Since(Last(History(w, channel), cfg.capacity), id, cutoff) ==> Published(w, e)
  {
    var h := History(w, channel);
    SinceInside(Last(h, cfg.capacity), id, cutoff);
    assert forall e :: e in Last(h, cfg.capacity) ==> e in h;
  }

  /** History only grows: by the new event of a broadcast, on its channel. */
  lemma HistoryGrows(cfg: Config, w: World, s: Step)
    requires HistoryTagged(w) && Enabled(w, s)
    ensures HistoryTagged(Next(cfg, w, s))
    ensures forall e :: Published(w, e) ==> Published(Next(cfg, w, s), e)
    ensures s.Broadcast? ==> Published(Next(cfg, w, s), NewEvent(w, s.channel, s.now))
  {
    var w' := Next(cfg, w, s);
    if s.Broadcast? {
      PushedOn(w, w', NewEvent(w, s.channel, s.now));
    } else {
      assert forall c :: History(w', c) == History(w, c);
    }
  }

  lemma PushedOn(w: World, w': World, e: Event)
    requires HistoryTagged(w) && w'.history == w.history[e.channel := History(w, e.channel) + [e]]
    ensures HistoryTagged(w') && Published(w', e) && forall x :: Published(w, x) ==> Published(w', x)
  {
    var h := History(w, e.channel);
    forall c
      ensures forall x :: x in History(w', c) ==> x.channel == c
      ensures forall x :: x in History(w, c) ==> x in History(w', c)
    {
      assert History(w', c) == if c == e.channel then h + [e] else History(w, c);
    }
    assert History(w', e.channel)[|h|] == e;
  }

  lemma SentIsPublished(cfg: Config, c: Conn, w: World, e: Event)
    requires Published(w, e) && ConnOk(w, c)
    ensures ConnOk(w, Send(cfg, c, Ev(e)))
  {
  }

  lemma FlightStep(cfg: Config, w: World, s: Step)
    requires HistoryTagged(w) && FlightOk(w) && Enabled(w, s)
    requires forall e :: Published(w, e) ==> Published(Next(cfg, w, s), e)
    requires s.Broadcast? ==> Published(Next(cfg, w, s), NewEvent(w, s.channel, s.now))
    ensures FlightOk(Next(cfg, w, s))
  {
    match s
    case Broadcast(channel, now) =>
      if w.link.Up? {
        SentIsPublished(cfg, w.link.conn, Next(cfg, w, s), NewEvent(w, channel, now));
      }
    case Join(_) =>
    case Open =>
    case Serve(now, order) =>
      var c := w.link.conn.(inbox := w.link.conn.inbox[1..]);
      if w.link.conn.inbox[0].Replay? {
        ReplayAdds(cfg, w, c, w.link.conn.inbox[0].id, now, order);
      }
    case Write =>
      var q := w.link.conn.queue;
      assert q[0] in q && forall f :: f in q[1..] ==> f in q;
    case Receive =>
      var q := w.link.conn.wire;
      assert forall f :: f in q[1..] ==> f in q;
    case Close =>
  }

  lemma ClientStep(w: World, f: Frame, w': World)
    requires ClientOk(w) && FrameOk(w, f)
    requires w'.client == OnMessage(w.client, f) && forall e :: Published(w, e) ==> Published(w', e)
    ensures ClientOk(w')
  {
    if !Stale(w.client.last, f) {
      LogGrows(w.client.log, w.client.last, f.event);
    }
  }

  lemma LogGrows(log: seq<Event>, last: string, e: Event)
    requires Increasing(log) && Less(last, e.id)
    requires last == (if log == [] then "" else log[|log| - 1].id)
    ensures Increasing(log + [e])
  {
    forall i | 0 <= i < |log| - 1
      ensures Less(log[i].id, e.id)
    {
      LessTransitive(log[i].id, last, e.id);
    }
  }

  /** Every step keeps the invariant, whatever the order of the IDs that are published. */
  lemma SafetyStep(cfg: Config, w: World, s: Step)
    requires SafetyInvariant(w) && Enabled(w, s)
    ensures SafetyInvariant(Next(cfg, w, s))
  {
    HistoryGrows(cfg, w, s);
    FlightStep(cfg, w, s);
    if s.Receive? {
      var f := w.link.conn.wire[0];
      assert f in w.link.conn.wire;
      ClientStep(w, f, Next(cfg, w, s));
    }
  }

  lemma {:induction false} SafetyRun(cfg: Config, w: World, steps: seq<Step>)
    requires SafetyInvariant(w) && IsRun(cfg, w, steps)
    ensures SafetyInvariant(Run(cfg, w, steps))
    decreases |steps|
  {
    if steps != [] {
      SafetyStep(cfg, w, steps[0]);
      SafetyRun(cfg, Next(cfg, w, steps[0]), steps[1..]);
    }
  }

  /**
   Safety under every interleaving of broadcasts, dropped sends, disconnects,
   resubscriptions and replays on any number of channels, past the printed widths
   too: the client dispatches published events only, in strictly increasing ID
   order, none twice.
   */
  lemma SafeFromStart(cfg: Config, channels: seq<string>, steps: seq<Step>)
    requires IsRun(cfg, Start(channels), steps)
    ensures var w := Run(cfg, Start(channels), steps);
      Increasing(w.client.log) && forall e :: e in w.client.log ==> Published(w, e)
  {
    SafetyRun(cfg, Start(channels), steps);
  }

  /** An event that is not newer than the last one dispatched, and was not dispatched, never will be. */
  lemma {:induction false} StaleIsLostForGood(cfg: Config, w: World, steps: seq<Step>, x: Event)
    requires IsRun(cfg, w, steps) && x !in w.client.log && !Less(w.client.last, x.id)
    ensures x !in Run(cfg, w, steps).client.log
    decreases |steps|
  {
    if steps != [] {
      var w' := Next(cfg, w, steps[0]);
      if steps[0].Receive? && w'.client != w.client {
        var e := w.link.conn.wire[0].event;
        if Less(e.id, x.id) {
          LessTransitive(w.client.last, e.id, x.id);
        }
      }
      StaleIsLostForGood(cfg, w', steps[1..], x);
    }
  }

  /** Once the client has dispatched an event, what is older and was not dispatched is lost for good. */
  lemma OlderIsLostForGood(cfg: Config, w: World, steps: seq<Step>, e: Event, x: Event)
    requires IsRun(cfg, w, steps) && ClientOk(w)
    requires e in w.client.log && Less(x.id, e.id) && x !in w.client.log
    ensures x !in Run(cfg, w, steps).client.log
  {
    var log, last := w.client.log, w.client.last;
    var i :| 0 <= i < |log| && log[i] == e;
    if Less(last, x.id) {
      LessTransitive(last, x.id, e.id);
      LessAsymmetric(last, e.id);
      LessIrreflexive(last);
    }
    StaleIsLostForGood(cfg, w, steps, x);
  }

  // ---------------------------------------------------------- subscriptions

  /** The channels that a list of requests subscribes to. */
  function Asked(rs: seq<Request>): set<string>
  {
    set r | r in rs && r.Subscribe? :: r.channel
  }

  /** On a connection, every channel of the client is subscribed or still asked for, and no other is. */
  ghost predicate SubscribedOrAsked(w: World)
  {
    w.link.Up? ==> w.link.conn.subs + Asked(w.link.conn.inbox) == set c | c in w.client.channels
  }

  /** Reconnecting asks for each channel in turn, and only then for the replay. */
  lemma {:induction false} SubscriptionsInTurn(channels: seq<string>)
    ensures |Subscriptions(channels)| == |channels|
    ensures forall i :: 0 <= i < |channels| ==> Subscriptions(channels)[i] == Subscribe(channels[i])
  {
    if channels != [] {
      SubscriptionsInTurn(channels[1..]);
    }
  }

  lemma OpenAsksForAll(c: Client)
    ensures Asked(OnOpen(c)) == set x | x in c.channels
    ensures |OnOpen(c)| >= |c.channels|
    ensures OnOpen(c)[|c.channels|..] == if c.last != "" then [Replay(c.last)] else []
  {
    SubscriptionsInTurn(c.channels);
    var rs := OnOpen(c);
    forall i | 0 <= i < |c.channels|
      ensures c.channels[i] in Asked(rs)
    {
      assert rs[i] == Subscribe(c.channels[i]);
    }
  }

  lemma {:induction false} SendAllKeepsRequests(cfg: Config, c: Conn, es: seq<Event>)
    ensures SendAll(cfg, c, es).inbox == c.inbox && SendAll(cfg, c, es).subs == c.subs
    decreases |es|
  {
    if es != [] {
      SendAllKeepsRequests(cfg, Send(cfg, c, Ev(es[0])), es[1..]);
    }
  }

  lemma {:induction false} ReplayKeepsRequests(
    cfg: Config, history: map<string, seq<Event>>, c: Conn, id: string, now: nat, order: seq<string>)
    ensures var d := ReplayMissed(cfg, history, c, id, now, order); d.inbox == c.inbox && d.subs == c.subs
    decreases |order|
  {
    if order != [] {
      SendAllKeepsRequests(cfg, c, Since(Last(Past(history, order[0]), cfg.capacity), id, now - cfg.maxAge));
      ReplayKeepsRequests(cfg, history, ReplayOne(cfg, history, c, id, now, order[0]), id, now, order[1..]);
    }
  }

  lemma ServedRequest(rs: seq<Request>)
    requires rs != []
    ensures Asked(rs) == Asked(rs[1..]) + if rs[0].Subscribe? then {rs[0].channel} else {}
  {
    assert forall r :: r in rs <==> r == rs[0] || r in rs[1..];
  }

  lemma AskedMore(rs: seq<Request>, channel: string)
    ensures Asked(rs + [Subscribe(channel)]) == Asked(rs) + {channel}
  {
    assert (rs + [Subscribe(channel)])[|rs|] == Subscribe(channel);
    assert forall r :: r in rs + [Subscribe(channel)] <==> r in rs || r == Subscribe(channel);
  }

  lemma ChannelsMore(channels: seq<string>, channel: string)
    ensures (set c | c in channels + [channel]) == (set c | c in channels) + {channel}
  {
  }

  lemma JoinSubscribes(cfg: Config, w: World, channel: string)
    requires SubscribedOrAsked(w) && Enabled(w, Join(channel))
    ensures SubscribedOrAsked(Next(cfg, w, Join(channel)))
  {
    ChannelsMore(w.client.channels, channel);
    if w.link.Up? {
      AskedMore(w.link.conn.inbox, channel);
    }
  }

  lemma ServeSubscribes(cfg: Config, w: World, now: nat, order: seq<string>)
    requires SubscribedOrAsked(w) && Enabled(w, Serve(now, order))
    ensures SubscribedOrAsked(Next(cfg, w, Serve(now, order)))
  {
    var inbox := w.link.conn.inbox;
    var c := w.link.conn.(inbox := inbox[1..]);
    ServedRequest(inbox);
    match inbox[0]
    case Subscribe(channel) =>
    case Replay(id) => ReplayKeepsRequests(cfg, w.history, c, id, now, order);
  }

  lemma SubscriptionStep(cfg: Config, w: World, s: Step)
    requires SubscribedOrAsked(w) && Enabled(w, s)
    ensures SubscribedOrAsked(Next(cfg, w, s))
  {
    match s
    case Join(channel) => JoinSubscribes(cfg, w, channel);
    case Open => OpenAsksForAll(w.client);
    case Serve(now, order) => ServeSubscribes(cfg, w, now, order);
    case _ =>
  }

  lemma {:induction false} SubscriptionRun(cfg: Config, w: World, steps: seq<Step>)
    requires SubscribedOrAsked(w) && IsRun(cfg, w, steps)
    ensures SubscribedOrAsked(Run(cfg, w, steps))
    decreases |steps|
  {
    if steps != [] {
      SubscriptionStep(cfg, w, steps[0]);
      SubscriptionRun(cfg, Next(cfg, w, steps[0]), steps[1..]);
    }
  }

  /** In every run, a connection whose requests are all served is subscribed to exactly the client's channels. */
  lemma ServedMeansSubscribed(cfg: Config, channels: seq<string>, steps: seq<Step>)
    requires IsRun(cfg, Start(channels), steps)
    ensures var w := Run(cfg, Start(channels), steps);
      w.link.Up? && w.link.conn.inbox == [] ==> w.link.conn.subs == set c | c in w.client.channels
  {
    SubscriptionRun(cfg, Start(channels), steps);
    assert Asked([]) == {};
  }

  // --------------------------------------------------- order of publication

  /** IDs handed out so far: a clock that has been read, and a counter of that moment. */
  ghost predicate Minted(id: string, millis: nat, counter: nat)
  {
    exists m: nat, n: nat :: m <= millis && n <= counter && InWidth(m, n) && id == EventId(m, n)
  }

  ghost predicate HistoryOk(w: World)
  {
    forall c :: Increasing(History(w, c)) && forall e :: e in History(w, c) ==> Minted(e.id, w.millis, w.counter)
  }

  /** Safety, and each channel's history in the order of its IDs. */
  ghost predicate OrderedInvariant(w: World)
  {
    SafetyInvariant(w) && HistoryOk(w)
  }

  /** The clock and the counter of the state fit the printed IDs. */
  predicate Fits(w: World)
  {
    InWidth(w.millis, w.counter)
  }

  lemma MintedIsOlder(id: string, millis: nat, counter: nat, now: nat, n: nat)
    requires Minted(id, millis, counter) && millis <= now && counter < n && InWidth(now, n)
    ensures Less(id, EventId(now, n))
  {
    var m0: nat, n0: nat :| m0 <= millis && n0 <= counter && InWidth(m0, n0) && id == EventId(m0, n0);
    IdsSortAsPairs(m0, n0, now, n);
  }

  lemma NewEventIsNewest(w: World, channel: string, now: nat)
    requires HistoryOk(w) && now >= w.millis && InWidth(now, w.counter + 2)
    ensures var id := NewEvent(w, channel, now).id; id != "" && Minted(id, now, w.counter + 2)
    ensures forall c, e :: e in History(w, c) ==> Less(e.id, NewEvent(w, channel, now).id)
  {
    forall c, e | e in History(w, c)
      ensures Less(e.id, NewEvent(w, channel, now).id)
    {
      MintedIsOlder(e.id, w.millis, w.counter, now, w.counter + 2);
    }
  }

  lemma HistoryOfBroadcast(cfg: Config, w: World, channel: string, now: nat)
    requires HistoryOk(w) && now >= w.millis && InWidth(now, w.counter + 2)
    ensures HistoryOk(Next(cfg, w, Broadcast(channel, now)))
  {
    var w', e, h := Next(cfg, w, Broadcast(channel, now)), NewEvent(w, channel, now), History(w, channel);
    NewEventIsNewest(w, channel, now);
    forall c
      ensures Increasing(History(w', c))
      ensures forall x :: x in History(w', c) ==> Minted(x.id, w'.millis, w'.counter)
    {
      assert History(w', c) == if c == channel then h + [e] else History(w, c);
    }
  }

  lemma HistorySame(w: World, w': World)
    requires HistoryOk(w)
    requires w'.history == w.history && w'.millis == w.millis && w'.counter == w.counter
    ensures HistoryOk(w')
  {
    assert forall c :: History(w', c) == History(w, c);
  }

  /** Clock and counter only grow, so widths that hold at the end held all along. */
  lemma {:induction false} FitsBefore(cfg: Config, w: World, steps: seq<Step>)
    requires IsRun(cfg, w, steps) && Fits(Run(cfg, w, steps))
    ensures Fits(w)
    decreases |steps|
  {
    if steps != [] {
      FitsBefore(cfg, Next(cfg, w, steps[0]), steps[1..]);
    }
  }

  /** A step after which clock and counter still fit keeps the histories in order. */
  lemma OrderedStep(cfg: Config, w: World, s: Step)
    requires OrderedInvariant(w) && Enabled(w, s) && Fits(Next(cfg, w, s))
    ensures OrderedInvariant(Next(cfg, w, s))
  {
    SafetyStep(cfg, w, s);
    if s.Broadcast? {
      HistoryOfBroadcast(cfg, w, s.channel, s.now);
    } else {
      HistorySame(w, Next(cfg, w, s));
    }
  }

  /** The events that the broadcasts of a run publish, on all channels, in that order. */
  ghost function Publications(cfg: Config, w: World, steps: seq<Step>): seq<Event>
    requires IsRun(cfg, w, steps)
    decreases |steps|
  {
    if steps == [] then []
    else
      (if steps[0].Broadcast? then [NewEvent(w, steps[0].channel, steps[0].now)] else [])
      + Publications(cfg, Next(cfg, w, steps[0]), steps[1..])
  }

  lemma {:induction false} LaterIsNewer(cfg: Config, w: World, steps: seq<Step>, id: string)
    requires IsRun(cfg, w, steps) && Fits(Run(cfg, w, steps)) && Minted(id, w.millis, w.counter)
    ensures forall e :: e in Publications(cfg, w, steps) ==> Less(id, e.id)
    decreases |steps|
  {
    if steps != [] {
      var w' := Next(cfg, w, steps[0]);
      FitsBefore(cfg, w', steps[1..]);
      if steps[0].Broadcast? {
        MintedIsOlder(id, w.millis, w.counter, steps[0].now, w.counter + 2);
      }
      LaterIsNewer(cfg, w', steps[1..], id);
    }
  }

  lemma {:induction false} PublicationsRise(cfg: Config, w: World, steps: seq<Step>)
    requires IsRun(cfg, w, steps) && Fits(Run(cfg, w, steps))
    ensures Increasing(Publications(cfg, w, steps))
    decreases |steps|
  {
    if steps != [] {
      var w', s := Next(cfg, w, steps[0]), steps[0];
      FitsBefore(cfg, w', steps[1..]);
      PublicationsRise(cfg, w', steps[1..]);
      if s.Broadcast? {
        var id := NewEvent(w, s.channel, s.now).id;
        assert Minted(id, w'.millis, w'.counter);
        LaterIsNewer(cfg, w', steps[1..], id);
      }
    }
  }

  lemma {:induction false} HistoryIsPublications(cfg: Config, w: World, steps: seq<Step>, e: Event)
    requires IsRun(cfg, w, steps) && Published(Run(cfg, w, steps), e)
    ensures Published(w, e) || e in Publications(cfg, w, steps)
    decreases |steps|
  {
    if steps != [] {
      var w', s := Next(cfg, w, steps[0]), steps[0];
      HistoryIsPublications(cfg, w', steps[1..], e);
      if s.Broadcast? {
        assert History(w', e.channel) ==
          if s.channel == e.channel then History(w, e.channel) + [NewEvent(w, s.channel, s.now)]
          else History(w, e.channel);
      }
    }
  }

  /** x stands before y. */
  ghost predicate Before(all: seq<Event>, x: Event, y: Event)
  {
    exists i, j :: 0 <= i < j < |all| && all[i] == x && all[j] == y
  }

  /** While clock and counter fit the printed IDs, events are dispatched in the order of their publication. */
  lemma DispatchedAsPublished(cfg: Config, channels: seq<string>, steps: seq<Step>)
    requires IsRun(cfg, Start(channels), steps) && Fits(Run(cfg, Start(channels), steps))
    ensures var log := Run(cfg, Start(channels), steps).client.log;
      forall i, j :: 0 <= i < j < |log| ==> Before(Publications(cfg, Start(channels), steps), log[i], log[j])
  {
    var w0 := Start(channels);
    var log, all := Run(cfg, w0, steps).client.log, Publications(cfg, w0, steps);
    SafeFromStart(cfg, channels, steps);
    PublicationsRise(cfg, w0, steps);
    forall i, j | 0 <= i < j < |log|
      ensures Before(all, log[i], log[j])
    {
      HistoryIsPublications(cfg, w0, steps, log[i]);
      HistoryIsPublications(cfg, w0, steps, log[j]);
      RiseIsBefore(all, log[i], log[j]);
    }
  }

  lemma RiseIsBefore(all: seq<Event>, x: Event, y: Event)
    requires Increasing(all) && x in all && y in all && Less(x.id, y.id)
    ensures Before(all, x, y)
  {
    var i :| 0 <= i < |all| && all[i] == x;
    var j :| 0 <= j < |all| && all[j] == y;
    LessIrreflexive(x.id);
    LessAsymmetric(x.id, y.id);
  }

  /** Once the counter leaves its width the dedupe drops fresh events: this one is newer, and looks older. */
  lemma OverflowedEventIsDropped(c: Client, millis: nat, n: nat, e: Event)
    requires Pow16(WIDTH_N - 1) < n < Pow16(WIDTH_N) && c.last == EventId(millis, n)
    requires e.id == EventId(millis, Pow16(WIDTH_N))
    ensures OnMessage(c, Ev(e)) == c
  {
    CounterOverflowBreaksOrder(millis, n);
    LessAsymmetric(e.id, c.last);
  }
}
