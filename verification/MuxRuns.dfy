/** Whole runs of the link multiplexer. */
module MuxRuns {
  import opened MuxModel
  import opened MuxTheorems

  function Unstarted(cfg: MuxCfg): State {
    State(cfg, Built, seq(|cfg.links|, _ => UNUSED))
  }

  ghost predicate Feasible(st: State, events: seq<Event>)
    requires WellFormed(st)
    decreases |events|
  {
    events == [] || (Possible(st, events[0]) && Feasible(Step(st, events[0]).st, events[1..]))
  }

  function Run(st: State, events: seq<Event>): (o: Outcome)
    requires WellFormed(st) && Feasible(st, events)
    ensures WellFormed(o.st)
    decreases |events|
  {
    if events == [] then Outcome(st, [])
    else
      var first := Step(st, events[0]);
      var rest := Run(first.st, events[1..]);
      Outcome(rest.st, first.sent + rest.sent)
  }

  lemma {:induction false} RunOk(st: State, events: seq<Event>)
    requires Ok(st) && Feasible(st, events)
    ensures Ok(Run(st, events).st)
    decreases |events|
  {
    hide Step, Possible, StageOk, Unique;
    if events != [] {
      StepKeeps(st, events[0]);
      RunOk(Step(st, events[0]).st, events[1..]);
    }
  }

  lemma UnstartedOk(cfg: MuxCfg)
    ensures Ok(Unstarted(cfg))
  {
  }

  /** In every reachable state no two links hold the same sync source. */
  lemma SyncSourcesAreUnique(cfg: MuxCfg, events: seq<Event>)
    requires Feasible(Unstarted(cfg), events)
    ensures Unique(Run(Unstarted(cfg), events).st.links)
  {
    hide Run, Feasible, Unique, StageOk;
    UnstartedOk(cfg);
    RunOk(Unstarted(cfg), events);
  }

  /** In every reachable state a voice or keepalive packet can only be taken for the
      link that holds its source, wherever that link is in the table. */
  lemma PacketsReachTheirLink(cfg: MuxCfg, events: seq<Event>, i: nat)
    requires Feasible(Unstarted(cfg), events)
    requires i < |Run(Unstarted(cfg), events).st.links| && Run(Unstarted(cfg), events).st.links[i].hasSync
    ensures var links := Run(Unstarted(cfg), events).st.links; FindBySync(links, links[i].sync, 0) == i
  {
    hide Run, Feasible;
    SyncSourcesAreUnique(cfg, events);
    LookupFindsTheHolder(Run(Unstarted(cfg), events).st.links, i);
  }

  /** In every reachable state voice is passed on for a link if and only if that link
      holds its source and the packet comes from its address. */
  lemma VoiceGoesToTheHolder(cfg: MuxCfg, events: seq<Event>, ssrc: nat, ip: string, payload: Payload, now: real,
                             i: nat)
    requires Feasible(Unstarted(cfg), events)
    requires Run(Unstarted(cfg), events).st.stage == Running && i < |Run(Unstarted(cfg), events).st.links|
    ensures var st := Run(Unstarted(cfg), events).st;
            var sent, lk := Step(st, VoiceEvent(ssrc, ip, payload, now)).sent, st.links[i];
            Sent(i, VoicePassed(payload)) in sent <==> lk.hasSync && lk.sync == ssrc && st.cfg.links[i].remoteIp == ip
  {
    hide Run, Feasible, Unique;
    SyncSourcesAreUnique(cfg, events);
    var st := Run(Unstarted(cfg), events).st;
    var k := FindBySync(st.links, ssrc, 0);
    if st.links[i].hasSync && st.links[i].sync == ssrc {
      LookupFindsTheHolder(st.links, i);
      assert st.cfg.links[i].remoteIp == ip ==> Tagged(i, [VoicePassed(payload)])[0] == Sent(i, VoicePassed(payload));
    } else if k >= 0 {
      FindsFirst(st.links, ssrc, 0);
    }
  }

  /** In every reachable state a keepalive is sent back for a link if and only if that link
      holds its source and the packet comes from its address; nothing else is sent. */
  lemma KeepaliveGoesToTheHolder(cfg: MuxCfg, events: seq<Event>, ssrc: nat, ip: string, now: real, i: nat)
    requires Feasible(Unstarted(cfg), events)
    requires Run(Unstarted(cfg), events).st.stage == Running && i < |Run(Unstarted(cfg), events).st.links|
    ensures var st := Run(Unstarted(cfg), events).st;
            var sent, lk := Step(st, KeepaliveEvent(ssrc, ip, now)).sent, st.links[i];
            var holds := lk.hasSync && lk.sync == ssrc && st.cfg.links[i].remoteIp == ip;
            (holds ==> sent == [Sent(i, KeepaliveReflected(ssrc))])
            && (!holds ==> forall k: nat :: k < |sent| ==> sent[k].link != i)
  {
    hide Run, Feasible, Unique;
    SyncSourcesAreUnique(cfg, events);
    var st := Run(Unstarted(cfg), events).st;
    var k := FindBySync(st.links, ssrc, 0);
    if st.links[i].hasSync && st.links[i].sync == ssrc {
      LookupFindsTheHolder(st.links, i);
      assert Tagged(i, [KeepaliveReflected(ssrc)]) == [Sent(i, KeepaliveReflected(ssrc))];
    } else if k >= 0 {
      FindsFirst(st.links, ssrc, 0);
    }
  }

  /** In every reachable state of a running bridge: a reconnect is pending exactly for
      an enabled outbound link that is down; a keepalive is pending exactly for a link
      that is up; and a sync source is held exactly by a link that is shaking hands or
      up.  An enabled outbound link is without a timer, and waits for its peer alone, if
      and only if it is connecting or shaking hands. */
  lemma TimersFollowThePhase(cfg: MuxCfg, events: seq<Event>, i: nat)
    requires Feasible(Unstarted(cfg), events)
    requires Run(Unstarted(cfg), events).st.stage == Running && i < |Run(Unstarted(cfg), events).st.links|
    ensures var st := Run(Unstarted(cfg), events).st;
            var l, lk := st.cfg.links[i], st.links[i];
            && (lk.reconnect.At? <==> l.role == Outbound && l.enabled && lk.phase == Down)
            && (lk.keepalive.At? <==> lk.phase == Up)
            && (lk.hasSync <==> lk.phase == Handshaking || lk.phase == Up)
            && (lk.phase != Down ==> l.enabled)
            && (l.role == Outbound && l.enabled ==>
                  (lk.reconnect == Off && lk.keepalive == Off <==> lk.phase == Connecting || lk.phase == Handshaking))
  {
    hide Run, Feasible, Unique;
    UnstartedOk(cfg);
    RunOk(Unstarted(cfg), events);
    var st := Run(Unstarted(cfg), events).st;
    assert StageOk(st.stage, st.cfg.links[i], st.links[i]);
  }

  /** After stop no link has a timer, a source or a connection. */
  lemma StopLeavesNothing(cfg: MuxCfg, events: seq<Event>, i: nat)
    requires Feasible(Unstarted(cfg), events)
    requires Run(Unstarted(cfg), events).st.stage == Finished && i < |Run(Unstarted(cfg), events).st.links|
    ensures var lk := Run(Unstarted(cfg), events).st.links[i];
            lk.phase == Down && lk.reconnect == Off && lk.keepalive == Off && !lk.hasSync
  {
    hide Run, Feasible, Unique;
    UnstartedOk(cfg);
    RunOk(Unstarted(cfg), events);
    var st := Run(Unstarted(cfg), events).st;
    assert StageOk(st.stage, st.cfg.links[i], st.links[i]);
  }

  // ---------- What the translator is told ----------

  /** LinkUp less LinkDown notices for link `i`. */
  function Notices(trace: seq<Sent>, i: nat): int {
    if trace == [] then 0
    else
      var s := trace[|trace| - 1];
      Notices(trace[..|trace| - 1], i)
      + (if s.link != i then 0 else match s.out case LinkUp => 1 case LinkDown => -1 case _ => 0)
  }

  lemma {:induction false} NoticesAppend(a: seq<Sent>, b: seq<Sent>, i: nat)
    ensures Notices(a + b, i) == Notices(a, i) + Notices(b, i)
  {
    if b == [] {
      assert a + b == a;
    } else {
      assert (a + b)[..|a + b| - 1] == a + b[..|b| - 1];
      NoticesAppend(a, b[..|b| - 1], i);
    }
  }

  lemma {:induction false} NoticesTagged(i: nat, outs: seq<Out>, j: nat)
    ensures Notices(Tagged(i, outs), j) == if i == j then UpDown(outs) else 0
  {
    if outs != [] {
      var init := outs[..|outs| - 1];
      assert Tagged(i, outs)[..|outs| - 1] == Tagged(i, init);
      NoticesTagged(i, init, j);
    }
  }

  /** The notices add up to the change of phase. */
  ghost predicate Accounts(st: State, o: Outcome) {
    && |o.st.links| == |st.links|
    && forall i: nat :: i < |st.links| ==> Notices(o.sent, i) == IsUp(o.st.links[i]) - IsUp(st.links[i])
  }

  lemma UpdateAccounts(st: State, i: nat, r: Result)
    requires i < |st.links| && UpDown(r.outs) == IsUp(r.link) - IsUp(st.links[i])
    ensures Accounts(st, Update(st, i, r))
  {
    hide Notices, UpDown, Tagged;
    var o := Update(st, i, r);
    forall j: nat | j < |st.links| ensures Notices(o.sent, j) == IsUp(o.st.links[j]) - IsUp(st.links[j]) {
      NoticesTagged(i, r.outs, j);
    }
  }

  lemma NothingAccounts(st: State, next: State)
    requires next.links == st.links
    ensures Accounts(st, Outcome(next, []))
  {
  }

  lemma ThenAccounts(st: State, a: Outcome, b: Outcome)
    requires Accounts(st, a) && Accounts(a.st, b)
    ensures Accounts(st, Outcome(b.st, a.sent + b.sent))
  {
    hide Notices;
    forall i: nat | i < |st.links| ensures Notices(a.sent + b.sent, i) == IsUp(b.st.links[i]) - IsUp(st.links[i]) {
      NoticesAppend(a.sent, b.sent, i);
    }
  }

  lemma {:induction false} SweepAccounts(st: State, i: nat, e: Event, before: Stage)
    requires PartOk(st, i, before) && i <= |st.links| && SweepsTo(e, before, st.stage)
    requires e.StopEvent? || |e.started| == |st.links|
    ensures Accounts(st, Sweep(st, i, e))
    decreases |st.links| - i
  {
    hide SweepStep, StageOk, LinkOk, Unique, Accounts;
    if i == |st.links| {
      NothingAccounts(st, st);
    } else {
      var r := SweepStep(st, i, e);
      SweepStepKeeps(st, i, e, before);
      UpdateUnique(st.links, i, r.link);
      UpdateAccounts(st, i, r);
      var o := Update(st, i, r);
      SweepAccounts(o.st, i + 1, e, before);
      ThenAccounts(st, o, Sweep(o.st, i + 1, e));
    }
  }

  lemma StepAccounts(st: State, e: Event)
    requires Ok(st) && Possible(st, e)
    ensures Accounts(st, Step(st, e))
  {
    hide LinkOk, Unique, ConnectFinished, BytesReceived, Teardown, ReconnectFired, KeepaliveFired, Accepted, Sweep,
         Accounts, UpDown, IsUp, QuestionLid, QuestionSync;
    match e {
      case StartEvent(_, _) =>
        SweepAccounts(st.(stage := Running), 0, e, Built);
        SameLinks(st, st.(stage := Running), Sweep(st.(stage := Running), 0, e));
      case ConnectEvent(i, ok, sync, now) =>
        ConnectKeeps(st.cfg.links[i].role, st.links[i], ok, sync, now);
        UpdateAccounts(st, i, ConnectFinished(st.links[i], ok, sync, now));
      case ReceiveEvent(i, data, now) =>
        BytesKeep(st.cfg, st.cfg.links[i].role, st.links[i], data, now);
        UpdateAccounts(st, i, BytesReceived(st.cfg, st.cfg.links[i].role, st.links[i], data, now));
      case ClosedEvent(i, now) =>
        OpenLink(st.cfg.links[i].role, st.links[i]);
        TeardownKeeps(st.cfg.links[i].role, st.links[i], now);
        UpdateAccounts(st, i, Teardown(st.cfg.links[i].role, st.links[i], now));
      case ReconnectEvent(i, ready, now) =>
        ReconnectKeeps(st.cfg.links[i].role, st.links[i], ready, now);
        UpdateAccounts(st, i, ReconnectFired(st.links[i], ready, now));
      case KeepaliveTimerEvent(i, now) =>
        KeepaliveKeeps(st.cfg, st.cfg.links[i].role, st.links[i], now);
        UpdateAccounts(st, i, KeepaliveFired(st.cfg, st.cfg.links[i].role, st.links[i], now));
      case KeepaliveEvent(ssrc, ip, now) =>
        NothingAccounts(st, st);
        HeardAccounts(st, ssrc, ip, now);
      case VoiceEvent(ssrc, ip, payload, _) =>
        VoiceAccounts(st, ssrc, ip, payload);
      case QuestionEvent(ip, question, now) =>
        QuestionAccounts(st, ip, QuestionLid(question), QuestionSync(question), now);
      case ReloadEvent(enabled, _, _) =>
        ToggledPart(st, enabled);
        var t := st.(cfg := st.cfg.(links := Toggled(st.cfg.links, enabled)));
        SweepAccounts(t, 0, e, Running);
        SameLinks(st, t, Sweep(t, 0, e));
      case StopEvent(_) =>
        SweepAccounts(st.(stage := Finished), 0, e, Running);
        SameLinks(st, st.(stage := Finished), Sweep(st.(stage := Finished), 0, e));
    }
  }

  lemma SameLinks(st: State, t: State, o: Outcome)
    requires t.links == st.links && Accounts(t, o)
    ensures Accounts(st, o)
  {
  }

  lemma HeardAccounts(st: State, ssrc: nat, ip: string, now: real)
    requires WellFormed(st)
    ensures Accounts(st, OnKeepalive(st, ssrc, ip, now))
  {
    hide Accounts;
    NothingAccounts(st, st);
    var i := FindBySync(st.links, ssrc, 0);
    if i >= 0 {
      UpDownOne(KeepaliveReflected(ssrc));
      UpdateAccounts(st, i, Result(st.links[i].(lastHeard := now), [KeepaliveReflected(ssrc)]));
    }
  }

  lemma VoiceAccounts(st: State, ssrc: nat, ip: string, payload: Payload)
    requires WellFormed(st)
    ensures Accounts(st, OnVoice(st, ssrc, ip, payload))
  {
    hide Accounts;
    NothingAccounts(st, st);
    var i := FindBySync(st.links, ssrc, 0);
    if i >= 0 {
      UpDownOne(VoicePassed(payload));
      UpdateAccounts(st, i, Result(st.links[i], [VoicePassed(payload)]));
      assert st.links[i := st.links[i]] == st.links;
    }
  }

  lemma QuestionAccounts(st: State, ip: string, lid: int, sync: nat, now: real)
    requires Ok(st) && st.stage == Running
    ensures Accounts(st, OnQuestion(st, ip, lid, sync, now))
  {
    hide Accounts, Accepted, Unique, LinkOk, UpDown, IsUp;
    NothingAccounts(st, st);
    var m := MatchInbound(st.cfg.links, ip, lid, 0);
    if m >= 0 {
      assert StageOk(st.stage, st.cfg.links[m], st.links[m]);
      AcceptKeeps(st.cfg, st.links[m], sync, now);
      UpdateAccounts(st, m, Accepted(st.cfg, st.links[m], sync, now));
    }
  }

  lemma {:induction false} RunAccounts(st: State, events: seq<Event>)
    requires Ok(st) && Feasible(st, events)
    ensures Accounts(st, Run(st, events))
    decreases |events|
  {
    hide Step, Possible, StageOk, Unique, Accounts;
    if events == [] {
      NothingAccounts(st, st);
    } else {
      var first := Step(st, events[0]);
      StepKeeps(st, events[0]);
      StepAccounts(st, events[0]);
      RunAccounts(first.st, events[1..]);
      ThenAccounts(st, first, Run(first.st, events[1..]));
    }
  }

  /** After every run the translator has been told of one more up than down exactly
      for the links that are up: every link loss reaches it once. */
  lemma TranslatorKnowsWhoIsUp(cfg: MuxCfg, events: seq<Event>, i: nat)
    requires Feasible(Unstarted(cfg), events) && i < |cfg.links|
    ensures var o := Run(Unstarted(cfg), events);
            |o.st.links| == |cfg.links| && Notices(o.sent, i) == if o.st.links[i].phase == Up then 1 else 0
  {
    hide Run, Feasible, Notices, StageOk, Unique;
    UnstartedOk(cfg);
    RunAccounts(Unstarted(cfg), events);
  }
}
