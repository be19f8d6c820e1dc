/** The objects of the realtime layer, each against the step of the protocol it performs. */
module Realtime {
  import opened Events
  import opened EventIds
  import opened Text
  import opened Seqs
  import opened Resume

  /** The TypeScript client's handling of one incoming frame. */
  class Socket {
    const channels: seq<string>
    var lastEventID: string
    var dispatched: seq<Event>

    constructor (names: seq<string>)
      ensures State() == Client(names, "", [])
    {
      channels := names;
      lastEventID := "";
      dispatched := [];
    }

    ghost function State(): Client
      reads this
    {
      Client(channels, lastEventID, dispatched)
    }

    /** Anything not strictly newer than the last ID seen is a duplicate and is dropped. */
    method Message(f: Frame)
      modifies this
      ensures State() == OnMessage(old(State()), f)
    {
      if f.Ev? {
        if !Less(lastEventID, f.event.id) {
          return;
        }
        lastEventID := f.event.id;
        dispatched := dispatched + [f.event];
      }
    }

    /** The frames sent when the socket opens: subscriptions first, then the resume. */
    method Opened() returns (out: seq<Request>)
      ensures out == OnOpen(State())
    {
      out := [];
      var i := 0;
      while i < |channels|
        invariant 0 <= i <= |channels|
        invariant out + Subscriptions(channels[i..]) == Subscriptions(channels)
      {
        assert channels[i..][1..] == channels[i + 1..];
        out := out + [Subscribe(channels[i])];
        i := i + 1;
      }
      assert channels[i..] == [];
      if lastEventID != "" {
        out := out + [Replay(lastEventID)];
      }
    }
  }

  lemma LastAfterPush(past: seq<Event>, e: Event, n: nat)
    ensures Last(Last(past, n) + [e], n) == Last(past + [e], n)
  {
  }

  /** The hub's buffers and connections. */
  class Hub {
    const cfg: Config
    var counter: nat
    var buffers: map<string, seq<Event>>
    var conns: map<string, Conn>
    ghost var history: map<string, seq<Event>>

    /** Each ring holds the last part of its channel's history (see RingBuffers.PushAllKeepsLast). */
    ghost predicate Valid()
      reads this
    {
      buffers.Keys == history.Keys && forall c :: c in buffers ==> buffers[c] == Last(history[c], cfg.capacity)
    }

    /** One connection and its client, as the protocol sees them. */
    ghost function WorldOf(k: string, client: Client, millis: nat): World
      requires k in conns
      reads this
    {
      World(history, millis, counter, Up(conns[k]), client)
    }

    constructor (settings: Config)
      ensures Valid() && cfg == settings && counter == 0 && history == map[] && conns == map[]
    {
      cfg := settings;
      counter := 0;
      buffers, conns, history := map[], map[], map[];
    }

    /**
     Buffer the event, then send it to every connection subscribed to the channel:
     for each connection and its client, the broadcast step of the protocol.
     */
    method Broadcast(channel: string, now: nat) returns (e: Event)
      requires Valid()
      modifies this
      ensures Valid()
      ensures e == Event(EventId(now, old(counter) + 2), channel, now / 1000) && counter == old(counter) + 2
      ensures history == old(history)[channel := Past(old(history), channel) + [e]]
      ensures conns.Keys == old(conns).Keys
      ensures forall k, client, millis: nat :: k in conns && millis <= now ==>
                WorldOf(k, client, now) == Next(cfg, old(WorldOf(k, client, millis)), Step.Broadcast(channel, now))
    {
      counter := counter + 2;
      e := Event(EventId(now, counter), channel, now / 1000);
      var ring := if channel in buffers then buffers[channel] else [];
      buffers := buffers[channel := Last(ring + [e], cfg.capacity)];
      LastAfterPush(Past(history, channel), e, cfg.capacity);
      history := history[channel := Past(history, channel) + [e]];
      PushToChannel(channel, e);
    }

    method PushToChannel(channel: string, e: Event)
      modifies this`conns
      ensures conns.Keys == old(conns).Keys
      ensures forall k :: k in conns ==>
        conns[k] == if channel in old(conns)[k].subs then Send(cfg, old(conns)[k], Ev(e)) else old(conns)[k]
    {
      var todo := conns.Keys;
      ghost var was := conns;
      while todo != {}
        invariant conns.Keys == was.Keys && todo <= was.Keys
        invariant forall k :: k in was && k in todo ==> conns[k] == was[k]
        invariant forall k :: k in was && k !in todo ==>
          conns[k] == if channel in was[k].subs then Send(cfg, was[k], Ev(e)) else was[k]
        decreases todo
      {
        var k :| k in todo;
        if channel in conns[k].subs {
          conns := conns[k := Send(cfg, conns[k], Ev(e))];
        }
        todo := todo - {k};
      }
    }

    /** Replay, channel by channel, what the rings still hold after the client's last event. */
    method ReplayTo(k: string, lastEventID: string, now: nat, order: seq<string>)
      requires Valid() && k in conns
      modifies this`conns
      ensures Valid()
      ensures conns == old(conns)[k := ReplayMissed(cfg, history, old(conns)[k], lastEventID, now, order)]
    {
      var c := conns[k];
      var i := 0;
      Whole(order);
      while i < |order|
        invariant 0 <= i <= |order| && conns == old(conns)
        invariant ReplayMissed(cfg, history, c, lastEventID, now, order[i..]) ==
                  ReplayMissed(cfg, history, conns[k], lastEventID, now, order)
      {
        ReplayStep(cfg, history, c, lastEventID, now, order, i);
        c := ReplayChannel(c, order[i], lastEventID, now);
        i := i + 1;
      }
      conns := conns[k := c];
    }

    method ReplayChannel(c: Conn, channel: string, lastEventID: string, now: nat) returns (c': Conn)
      requires Valid()
      ensures c' == ReplayOne(cfg, history, c, lastEventID, now, channel)
    {
      var missed: seq<Event> := [];
      if channel in buffers {
        missed := Since(buffers[channel], lastEventID, now - cfg.maxAge);
      }
      c' := SendEach(c, missed);
    }

    method SendEach(c: Conn, es: seq<Event>) returns (c': Conn)
      ensures c' == SendAll(cfg, c, es)
    {
      c' := c;
      var j := 0;
      while j < |es|
        invariant 0 <= j <= |es|
        invariant SendAll(cfg, c', es[j..]) == SendAll(cfg, c, es)
      {
        DropOne(es, j);
        c' := Send(cfg, c', Ev(es[j]));
        j := j + 1;
      }
      Whole(es);
    }
  }

  /** One more channel of a replay. */
  lemma ReplayStep(
    cfg: Config, history: map<string, seq<Event>>, c: Conn, id: string, now: nat, order: seq<string>, i: nat)
    requires i < |order|
    ensures ReplayMissed(cfg, history, c, id, now, order[i..]) ==
            ReplayMissed(cfg, history, ReplayOne(cfg, history, c, id, now, order[i]), id, now, order[i + 1..])
  {
    DropOne(order, i);
  }
}
