/** Punctuality: how old a keepalive, and how far a reconnect, can be. */
module MuxClock {
  import opened LineChannel
  import opened MuxDiary
  import opened MuxModel
  import opened MuxRuns
  import opened MuxTheorems
  import opened Signalling

  /** The keepalive timer of an UP link is due within the timeout and one interval of
      the last packet heard; a reconnect is due within its delay. */
  predicate Watched(cfg: MuxCfg, lk: Link, clock: real) {
    && (lk.phase == Up ==>
          lk.lastHeard <= clock && lk.keepalive.At? && lk.keepalive.when - lk.lastHeard <= cfg.timeout + cfg.interval)
    && (lk.reconnect.At? ==> lk.reconnect.when <= clock + 5.0)
  }

  predicate Times(cfg: MuxCfg) {
    cfg.interval >= 0.0 && cfg.timeout >= 0.0
  }

  lemma TeardownWatched(cfg: MuxCfg, role: Role, lk: Link, clock: real, now: real)
    requires Times(cfg) && clock <= now
    requires lk.reconnect.At? ==> lk.reconnect.when <= clock + 5.0
    ensures Watched(cfg, Teardown(role, lk, now).link, now)
  {
  }

  lemma ConnectWatched(cfg: MuxCfg, role: Role, lk: Link, ok: bool, sync: nat, clock: real, now: real)
    requires Times(cfg) && Watched(cfg, lk, clock) && clock <= now
    ensures Watched(cfg, ConnectFinished(lk, ok, sync, now).link, now)
    ensures lk.phase == Down ==> Watched(cfg, StartConnect(lk, ok, now), now)
    ensures lk.phase == Down ==> Watched(cfg, ReconnectFired(lk, ok, now).link, now)
  {
  }

  lemma LineWatched(cfg: MuxCfg, role: Role, lk: Link, line: string, clock: real, now: real)
    requires Times(cfg) && Watched(cfg, lk, clock) && clock <= now
    ensures Watched(cfg, LineReceived(cfg, role, lk, line, now).link, now)
    ensures Watched(cfg, KeepaliveFired(cfg, role, lk, now).link, now)
  {
    hide AnswerAccepted, Clipped, Dispatch;
  }

  lemma {:induction false} BytesWatched(cfg: MuxCfg, role: Role, lk: Link, data: string, clock: real, now: real)
    requires Times(cfg) && Watched(cfg, lk, clock) && clock <= now
    ensures Watched(cfg, BytesReceived(cfg, role, lk, data, now).link, now)
    decreases |data|
  {
    hide LineReceived;
    if data != "" {
      var n := |data| - 1;
      BytesWatched(cfg, role, lk, data[..n], clock, now);
      var r := BytesReceived(cfg, role, lk, data[..n], now);
      var b := Stored(r.link.rx, data[n]);
      LineWatched(cfg, role, r.link.(rx := b), Line(b), now, now);
    }
  }

  lemma AcceptWatched(cfg: MuxCfg, lk: Link, sync: nat, clock: real, now: real)
    requires Times(cfg) && Watched(cfg, lk, clock) && clock <= now
    ensures Watched(cfg, Accepted(cfg, lk, sync, now).link, now)
    ensures Watched(cfg, lk.(lastHeard := now), now)
  {
  }

  lemma SweepWatched(st: State, i: nat, e: Event, clock: real, now: real, lk: Link)
    requires WellFormed(st) && i < |st.links| && lk == st.links[i]
    requires e.StartEvent? || e.ReloadEvent? || e.StopEvent?
    requires e.StopEvent? || |e.started| == |st.links|
    requires Times(st.cfg) && Watched(st.cfg, lk, clock) && LinkOk(st.cfg.links[i].role, lk) && clock <= now == e.now
    requires e.StartEvent? ==> lk == UNUSED
    ensures Watched(st.cfg, SweepStep(st, i, e).link, now)
  {
  }

  // ---------- All links ----------

  ghost predicate AllWatched(st: State, clock: real) {
    WellFormed(st) && Times(st.cfg) && forall i: nat :: i < |st.links| ==> Watched(st.cfg, st.links[i], clock)
  }

  lemma Later(st: State, clock: real, now: real)
    requires AllWatched(st, clock) && clock <= now
    ensures AllWatched(st, now)
  {
  }

  lemma UpdateWatched(st: State, i: nat, r: Result, clock: real, now: real)
    requires AllWatched(st, clock) && clock <= now && i < |st.links| && Watched(st.cfg, r.link, now)
    ensures AllWatched(Update(st, i, r).st, now)
  {
    Later(st, clock, now);
  }

  lemma {:induction false} SweepAllWatched(st: State, i: nat, e: Event, before: Stage, now: real)
    requires PartOk(st, i, before) && i <= |st.links| && SweepsTo(e, before, st.stage) && e.now == now
    requires e.StopEvent? || |e.started| == |st.links|
    requires AllWatched(st, now)
    ensures AllWatched(Sweep(st, i, e).st, now)
    decreases |st.links| - i
  {
    hide SweepStep, StageOk, LinkOk, Unique, Watched;
    if i < |st.links| {
      var r := SweepStep(st, i, e);
      SweepStepKeeps(st, i, e, before);
      UpdateUnique(st.links, i, r.link);
      SweepWatched(st, i, e, now, now, st.links[i]);
      UpdateWatched(st, i, r, now, now);
      SweepAllWatched(Update(st, i, r).st, i + 1, e, before, now);
    }
  }

  lemma StepWatched(st: State, e: Event, clock: real)
    requires Ok(st) && Possible(st, e) && AllWatched(st, clock) && clock <= e.now
    ensures AllWatched(Step(st, e).st, e.now)
  {
    hide LinkOk, Unique, ConnectFinished, BytesReceived, Teardown, QuestionLid, QuestionSync, ReconnectFired,
         KeepaliveFired, Accepted, Sweep, Watched;
    Later(st, clock, e.now);
    match e {
      case StartEvent(_, now) =>
        SweepAllWatched(st.(stage := Running), 0, e, Built, now);
      case ConnectEvent(i, ok, sync, now) =>
        ConnectWatched(st.cfg, st.cfg.links[i].role, st.links[i], ok, sync, clock, now);
        UpdateWatched(st, i, ConnectFinished(st.links[i], ok, sync, now), clock, now);
      case ReceiveEvent(i, data, now) =>
        BytesWatched(st.cfg, st.cfg.links[i].role, st.links[i], data, clock, now);
        UpdateWatched(st, i, BytesReceived(st.cfg, st.cfg.links[i].role, st.links[i], data, now), clock, now);
      case ClosedEvent(i, now) =>
        ReconnectSoon(st.cfg, st.links[i], clock);
        TeardownWatched(st.cfg, st.cfg.links[i].role, st.links[i], clock, now);
        UpdateWatched(st, i, Teardown(st.cfg.links[i].role, st.links[i], now), clock, now);
      case ReconnectEvent(i, ready, now) =>
        PendingIsDown(st.cfg.links[i].role, st.links[i]);
        ConnectWatched(st.cfg, st.cfg.links[i].role, st.links[i], ready, 0, clock, now);
        UpdateWatched(st, i, ReconnectFired(st.links[i], ready, now), clock, now);
      case KeepaliveTimerEvent(i, now) =>
        LineWatched(st.cfg, st.cfg.links[i].role, st.links[i], "", clock, now);
        UpdateWatched(st, i, KeepaliveFired(st.cfg, st.cfg.links[i].role, st.links[i], now), clock, now);
      case KeepaliveEvent(ssrc, ip, now) =>
        var i := FindBySync(st.links, ssrc, 0);
        if i >= 0 {
          AcceptWatched(st.cfg, st.links[i], 0, clock, now);
          UpdateWatched(st, i, Result(st.links[i].(lastHeard := now), [KeepaliveReflected(ssrc)]), clock, now);
        }
      case VoiceEvent(_, _, _, _) =>
      case QuestionEvent(ip, question, now) =>
        var sync := QuestionSync(question);
        var m := MatchInbound(st.cfg.links, ip, QuestionLid(question), 0);
        if m >= 0 {
          AcceptWatched(st.cfg, st.links[m], sync, clock, now);
          UpdateWatched(st, m, Accepted(st.cfg, st.links[m], sync, now), clock, now);
        }
      case ReloadEvent(enabled, _, now) =>
        ToggledPart(st, enabled);
        var t := st.(cfg := st.cfg.(links := Toggled(st.cfg.links, enabled)));
        ToggledWatched(st, t, now);
        SweepAllWatched(t, 0, e, Running, now);
      case StopEvent(now) =>
        SweepAllWatched(st.(stage := Finished), 0, e, Running, now);
    }
  }

  lemma ReconnectSoon(cfg: MuxCfg, lk: Link, clock: real)
    requires Watched(cfg, lk, clock)
    ensures lk.reconnect.At? ==> lk.reconnect.when <= clock + 5.0
  {
  }

  lemma PendingIsDown(role: Role, lk: Link)
    requires LinkOk(role, lk) && lk.reconnect.At?
    ensures lk.phase == Down
  {
  }

  lemma ToggledWatched(st: State, t: State, now: real)
    requires AllWatched(st, now) && WellFormed(t) && t.links == st.links
    requires t.cfg.interval == st.cfg.interval && t.cfg.timeout == st.cfg.timeout
    ensures AllWatched(t, now)
  {
  }

  /** The clock never goes back over the events, which start at `clock`. */
  predicate Monotone(events: seq<Event>, clock: real)
    decreases |events|
  {
    events == [] || (clock <= events[0].now && Monotone(events[1..], events[0].now))
  }

  function ClockAfter(events: seq<Event>, clock: real): real {
    if events == [] then clock else events[|events| - 1].now
  }

  lemma {:induction false} RunWatched(st: State, events: seq<Event>, clock: real)
    requires Ok(st) && Feasible(st, events) && AllWatched(st, clock) && Monotone(events, clock)
    ensures AllWatched(Run(st, events).st, ClockAfter(events, clock))
    decreases |events|
  {
    hide Step, Possible, StageOk, Unique, Watched;
    if events != [] {
      StepKeeps(st, events[0]);
      StepWatched(st, events[0], clock);
      RunWatched(Step(st, events[0]).st, events[1..], events[0].now);
      assert ClockAfter(events[1..], events[0].now) == ClockAfter(events, clock);
    }
  }

  /** No pending timer of any link is overdue. */
  ghost predicate Punctual(st: State, now: real) {
    forall i: nat :: i < |st.links| ==>
      (st.links[i].keepalive.At? ==> now <= st.links[i].keepalive.when)
      && (st.links[i].reconnect.At? ==> now <= st.links[i].reconnect.when)
  }

  /** With punctual timers and a clock that never goes back, a link that is up came up or
      heard a keepalive no longer ago than the timeout and one interval, and an enabled
      outbound link that is down tries again within five seconds of the last event. */
  lemma LinksAreWatched(cfg: MuxCfg, events: seq<Event>, clock: real, now: real, i: nat)
    requires Feasible(Unstarted(cfg), events) && Monotone(events, clock) && Times(cfg) && i < |cfg.links|
    requires Run(Unstarted(cfg), events).st.stage == Running && i < |Run(Unstarted(cfg), events).st.links|
    requires Punctual(Run(Unstarted(cfg), events).st, now)
    ensures var st, d := Run(Unstarted(cfg), events).st, DiaryOf(BLANK, Unstarted(cfg), events, i);
            var l, lk := st.cfg.links[i], st.links[i];
            && (d.up ==> now - d.heard <= st.cfg.timeout + st.cfg.interval)
            && (l.role == Outbound && l.enabled && lk.phase == Down ==>
                  lk.reconnect.At? && lk.reconnect.when <= ClockAfter(events, clock) + 5.0)
  {
    hide Run, Feasible, Unique, Monotone, DiaryOf;
    UnstartedOk(cfg);
    RunWatched(Unstarted(cfg), events, clock);
    TimersFollowThePhase(cfg, events, i);
    DiaryIsBorneOut(cfg, events, i);
    var st := Run(Unstarted(cfg), events).st;
    assert Watched(st.cfg, st.links[i], ClockAfter(events, clock));
  }
}
