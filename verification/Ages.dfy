/**
 The replay's age limit in terms of when events were broadcast. The program keeps
 whole seconds with an event and milliseconds in its cutoff, so a replay counts an
 event as up to 999 milliseconds older than it is.
 */
module Ages {
  import opened Seqs
  import opened Events
  import opened Resume
  import opened GapFree

  /** Broadcast at t, and at most maxAge old at now, counted from the full second; the first second has no date. */
  predicate Young(t: nat, now: nat, maxAge: nat)
  {
    t < 1000 || now - (t - t % 1000) <= maxAge
  }

  /** The test on the event is the test on its time of publication. */
  lemma InWindowExactly(w: World, channel: string, t: nat, now: nat, maxAge: nat)
    ensures InWindow(NewEvent(w, channel, t), now - maxAge) <==> Young(t, now, maxAge)
  {
  }

  /** The limit is the age itself but for the part of a second. */
  lemma YoungWithinASecond(t: nat, now: nat, maxAge: nat)
    ensures now - t <= maxAge - 999 ==> Young(t, now, maxAge)
    ensures t >= 1000 && now - t > maxAge ==> !Young(t, now, maxAge)
  {
  }

  /** The times at which the events of a history were broadcast. */
  ghost predicate Dated(h: seq<Event>, ts: seq<nat>)
  {
    |h| == |ts| && forall i :: 0 <= i < |h| ==> h[i].ts == ts[i] / 1000
  }

  function TimeOf(s: Step, c: string): seq<nat>
  {
    if s.Broadcast? && s.channel == c then [s.now] else []
  }

  /** When the steps broadcast on a channel. */
  function Times(steps: seq<Step>, c: string): seq<nat>
  {
    if steps == [] then [] else TimeOf(steps[0], c) + Times(steps[1..], c)
  }

  lemma DatedStep(cfg: Config, w: World, s: Step, c: string, ts: seq<nat>)
    requires Enabled(w, s) && Dated(History(w, c), ts)
    ensures Dated(History(Next(cfg, w, s), c), ts + TimeOf(s, c))
  {
    var h := History(w, c);
    if s.Broadcast? && s.channel == c {
      assert History(Next(cfg, w, s), c) == h + [NewEvent(w, c, s.now)];
    } else {
      assert History(Next(cfg, w, s), c) == h && ts + [] == ts;
    }
  }

  /** A channel's history was broadcast at the times of the run's broadcasts. */
  lemma {:induction false} DatedRun(cfg: Config, w: World, steps: seq<Step>, c: string, ts: seq<nat>)
    requires IsRun(cfg, w, steps) && Dated(History(w, c), ts)
    ensures Dated(History(Run(cfg, w, steps), c), ts + Times(steps, c))
    decreases |steps|
  {
    if steps == [] {
      assert ts + [] == ts;
    } else {
      DatedStep(cfg, w, steps[0], c, ts);
      DatedRun(cfg, Next(cfg, w, steps[0]), steps[1..], c, ts + TimeOf(steps[0], c));
      Assoc(ts, TimeOf(steps[0], c), Times(steps[1..], c));
    }
  }

  /** What was broadcast from position p on is not too much for the ring, and young enough. */
  ghost predicate Recent(cfg: Config, ts: seq<nat>, p: nat, now: nat)
    requires p <= |ts|
  {
    |ts| - p <= cfg.capacity && forall i :: p <= i < |ts| ==> Young(ts[i], now, cfg.maxAge)
  }

  lemma DatedWindow(h: seq<Event>, ts: seq<nat>, i: nat, now: nat, maxAge: nat)
    requires Dated(h, ts) && i < |h|
    ensures InWindow(h[i], now - maxAge) <==> Young(ts[i], now, maxAge)
  {
  }

  lemma ReplayableExactly(cfg: Config, h: seq<Event>, ts: seq<nat>, p: nat, now: nat)
    requires Dated(h, ts) && p <= |h|
    ensures Replayable(cfg, h, p, now) <==> Recent(cfg, ts, p, now)
  {
    forall i | p <= i < |h|
      ensures InWindow(h[i], now - cfg.maxAge) <==> Young(ts[i], now, cfg.maxAge)
    {
      DatedWindow(h, ts, i, now, cfg.maxAge);
    }
  }

  /**
   After any run, a replay at time now to a client that has seen the first p events of
   a channel brings exactly the others if and only if at most capacity of them were
   broadcast, none of them too long ago.
   */
  lemma ReplayCoversRecent(cfg: Config, channels: seq<string>, steps: seq<Step>, c: string, p: nat, now: nat)
    requires IsRun(cfg, Start(channels), steps) && Fits(Run(cfg, Start(channels), steps))
    requires 0 < p <= |History(Run(cfg, Start(channels), steps), c)|
    ensures var h, ts := History(Run(cfg, Start(channels), steps), c), Times(steps, c);
      && |h| == |ts|
      && (Accepted(h[p - 1].id, Frames(Found(cfg, h, h[p - 1].id, now))) == h[p..] <==> Recent(cfg, ts, p, now))
  {
    var w := Run(cfg, Start(channels), steps);
    var h, ts := History(w, c), Times(steps, c);
    DatedRun(cfg, Start(channels), steps, c, []);
    assert [] + ts == ts;
    OrderedRun(cfg, Start(channels), steps);
    ReplayableExactly(cfg, h, ts, p, now);
    ReplayCoversExactly(cfg, h, p, now);
  }

  lemma {:induction false} OrderedRun(cfg: Config, w: World, steps: seq<Step>)
    requires OrderedInvariant(w) && IsRun(cfg, w, steps) && Fits(Run(cfg, w, steps))
    ensures OrderedInvariant(Run(cfg, w, steps))
    decreases |steps|
  {
    if steps != [] {
      FitsBefore(cfg, Next(cfg, w, steps[0]), steps[1..]);
      OrderedStep(cfg, w, steps[0]);
      OrderedRun(cfg, Next(cfg, w, steps[0]), steps[1..]);
    }
  }

  // ------------------------------------------------------------- whole runs

  /** A replay about to be served brings all that is missing: it is recent, and the send queue has room. */
  ghost predicate RecoversRecent(cfg: Config, w: World, c: string, now: nat, ts: seq<nat>)
    requires w.link.Up? && |ts| == |History(w, c)|
  {
    var h, last := History(w, c), w.client.last;
    forall i :: 0 <= i < |h| - 1 && h[i].id == last ==>
      Recent(cfg, ts, i + 1, now) && |w.link.conn.queue| + |Found(cfg, h, last, now)| <= cfg.sendBuf
  }

  /** The hypotheses on a step, where ts are the times of the channel's events so far. */
  ghost predicate Timely(cfg: Config, w: World, c: string, s: Step, ts: seq<nat>)
    requires |ts| == |History(w, c)|
  {
    if s.Serve? then
      (w.link.Up? && w.link.conn.inbox != [] && w.link.conn.inbox[0].Replay? ==>
        RecoversRecent(cfg, w, c, s.now, ts))
    else Gentle(cfg, w, c, s)
  }

  /** Every step of the run meets them. */
  ghost predicate TimelyRun(cfg: Config, w: World, c: string, steps: seq<Step>, ts: seq<nat>)
    requires IsRun(cfg, w, steps)
    decreases |steps|
  {
    steps == [] ||
    (&& |ts| == |History(w, c)| && Timely(cfg, w, c, steps[0], ts)
     && TimelyRun(cfg, Next(cfg, w, steps[0]), c, steps[1..], ts + TimeOf(steps[0], c)))
  }

  lemma TimelyIsGentle(cfg: Config, w: World, c: string, s: Step, ts: seq<nat>)
    requires Dated(History(w, c), ts)
    ensures Timely(cfg, w, c, s, ts) <==> Gentle(cfg, w, c, s)
  {
    if s.Serve? && w.link.Up? {
      var h := History(w, c);
      forall p | 0 < p < |h|
        ensures Recent(cfg, ts, p, s.now) <==> Replayable(cfg, h, p, s.now)
      {
        ReplayableExactly(cfg, h, ts, p, s.now);
      }
      assert RecoversRecent(cfg, w, c, s.now, ts) <==> Recovers(cfg, w, c, s.now);
    }
  }

  lemma {:induction false} TimelyRunIsGentle(cfg: Config, w: World, c: string, steps: seq<Step>, ts: seq<nat>)
    requires IsRun(cfg, w, steps) && Dated(History(w, c), ts)
    ensures TimelyRun(cfg, w, c, steps, ts) <==> GentleRun(cfg, w, c, steps)
    decreases |steps|
  {
    if steps != [] {
      TimelyIsGentle(cfg, w, c, steps[0], ts);
      DatedStep(cfg, w, steps[0], c, ts);
      TimelyRunIsGentle(cfg, Next(cfg, w, steps[0]), c, steps[1..], ts + TimeOf(steps[0], c));
    }
  }

  /** Resume loses nothing, with the age limit counted from the times of the run's broadcasts. */
  lemma ResumeLosesNothingRecent(cfg: Config, c: string, steps: seq<Step>)
    requires IsRun(cfg, Start([c]), steps) && TimelyRun(cfg, Start([c]), c, steps, [])
    requires Fits(Run(cfg, Start([c]), steps))
    ensures exists f: nat :: LoggedFrom(Run(cfg, Start([c]), steps), c, f)
  {
    TimelyRunIsGentle(cfg, Start([c]), c, steps, []);
    ResumeLosesNothing(cfg, c, steps);
  }
}
