/** What every reachable state of the link multiplexer satisfies. */
module MuxTheorems {
  import opened LineChannel
  import opened MuxModel
  import opened Signalling

  // ---------- Sync sources ----------

  /** No two links hold the same sync source. */
  ghost predicate Unique(links: seq<Link>) {
    forall i: nat, j: nat :: i < j < |links| && links[i].hasSync && links[j].hasSync ==> links[i].sync != links[j].sync
  }

  lemma {:induction false} FindMisses(links: seq<Link>, sync: nat, i: nat)
    requires i <= |links| && FindBySync(links, sync, i) < 0
    ensures forall k: nat :: i <= k < |links| && links[k].hasSync ==> links[k].sync != sync
    decreases |links| - i
  {
    if i < |links| {
      FindMisses(links, sync, i + 1);
    }
  }

  lemma {:induction false} FindsFirst(links: seq<Link>, sync: nat, i: nat)
    requires i <= |links| && FindBySync(links, sync, i) >= 0
    ensures var k := FindBySync(links, sync, i);
            links[k].hasSync && links[k].sync == sync
            && forall j: nat :: i <= j < k && links[j].hasSync ==> links[j].sync != sync
    decreases |links| - i
  {
    if !(links[i].hasSync && links[i].sync == sync) {
      FindsFirst(links, sync, i + 1);
    }
  }

  /** With unique sources the lookup finds the one holder, in whatever order the
      table is searched. */
  lemma LookupFindsTheHolder(links: seq<Link>, k: nat)
    requires Unique(links) && k < |links| && links[k].hasSync
    ensures FindBySync(links, links[k].sync, 0) == k
  {
    var f := FindBySync(links, links[k].sync, 0);
    if f < 0 {
      FindMisses(links, links[k].sync, 0);
    } else {
      FindsFirst(links, links[k].sync, 0);
    }
  }

  /** A link that loses its source, or takes one nobody else holds, keeps the table unique. */
  lemma UpdateUnique(links: seq<Link>, i: nat, lk: Link)
    requires Unique(links) && i < |links|
    requires !lk.hasSync || (links[i].hasSync && lk.sync == links[i].sync)
             || forall j: nat :: j < |links| && j != i && links[j].hasSync ==> links[j].sync != lk.sync
    ensures Unique(links[i := lk])
  {
  }

  // ---------- One link ----------

  /** Timers and sync source go with the phase. */
  predicate LinkOk(role: Role, lk: Link) {
    && (lk.reconnect.At? <==> role == Outbound && lk.active && lk.phase == Down)
    && (lk.keepalive.At? <==> lk.phase == Up)
    && (lk.hasSync <==> lk.phase in {Handshaking, Up})
    && (role == Inbound ==> lk.phase in {Down, Up})
    && (lk.phase != Down ==> lk.active)
    && |lk.answer| < ANSWER_NFIELDS
  }

  /** Sources are only dropped, or kept as they were. */
  predicate NoNewSync(lk: Link, next: Link) {
    !next.hasSync || (lk.hasSync && next.sync == lk.sync)
  }

  function UpDown(outs: seq<Out>): int {
    if outs == [] then 0
    else UpDown(outs[..|outs| - 1])
         + (match outs[|outs| - 1] case LinkUp => 1 case LinkDown => -1 case _ => 0)
  }

  function IsUp(lk: Link): int {
    if lk.phase == Up then 1 else 0
  }

  /** A step that keeps the invariant and tells the translator of every change of UP. */
  predicate Keeps(role: Role, lk: Link, r: Result) {
    LinkOk(role, r.link) && UpDown(r.outs) == IsUp(r.link) - IsUp(lk)
  }

  lemma UpDownOne(o: Out)
    ensures UpDown([o]) == match o case LinkUp => 1 case LinkDown => -1 case _ => 0
  {
    assert [o][..0] == [];
  }

  lemma {:induction false} UpDownAppend(a: seq<Out>, b: seq<Out>)
    ensures UpDown(a + b) == UpDown(a) + UpDown(b)
  {
    if b == [] {
      assert a + b == a;
    } else {
      var n := |b| - 1;
      assert (a + b)[..|a + b| - 1] == a + b[..n];
      UpDownAppend(a, b[..n]);
    }
  }

  /** Teardown of a link that is not down. */
  lemma TeardownKeeps(role: Role, lk: Link, now: real)
    requires lk.phase != Down && ((role == Outbound && lk.active) || !lk.reconnect.At?)
    requires lk.active || !lk.reconnect.At?
    ensures Keeps(role, lk, Teardown(role, lk, now)) && NoNewSync(lk, Teardown(role, lk, now).link)
  {
    UpDownOne(LinkDown);
  }

  lemma StartConnectKeeps(lk: Link, started: bool, now: real)
    requires lk.phase == Down && lk.active && !lk.reconnect.At? && !lk.keepalive.At?
    ensures LinkOk(Outbound, StartConnect(lk, started, now)) && NoNewSync(lk, StartConnect(lk, started, now))
    ensures StartConnect(lk, started, now).phase != Up
  {
  }

  lemma ConnectKeeps(role: Role, lk: Link, ok: bool, sync: nat, now: real)
    requires LinkOk(role, lk) && lk.phase == Connecting
    ensures Keeps(role, lk, ConnectFinished(lk, ok, sync, now))
    ensures ok || NoNewSync(lk, ConnectFinished(lk, ok, sync, now).link)
  {
    UpDownOne(Question(sync));
  }

  lemma LineKeeps(cfg: MuxCfg, role: Role, lk: Link, line: string, now: real)
    requires LinkOk(role, lk)
    ensures Keeps(role, lk, LineReceived(cfg, role, lk, line, now))
    ensures NoNewSync(lk, LineReceived(cfg, role, lk, line, now).link)
  {
    hide AnswerAccepted, Clipped, Dispatch;
    UpDownOne(LinkUp);
    UpDownOne(Heard(Dispatch(line)));
    if lk.phase == Handshaking {
      TeardownKeeps(role, lk.(answer := []), now);
    }
  }

  /** What is in the receive buffer matters to nothing else. */
  lemma BufferAside(role: Role, lk: Link, rx: Buffered)
    ensures LinkOk(role, lk.(rx := rx)) <==> LinkOk(role, lk)
    ensures IsUp(lk.(rx := rx)) == IsUp(lk) && (lk.(rx := rx)).active == lk.active
    ensures forall next: Link :: (NoNewSync(lk.(rx := rx), next) <==> NoNewSync(lk, next))
                                 && (NoNewSync(next, lk.(rx := rx)) <==> NoNewSync(next, lk))
  {
  }

  lemma ByteKeeps(cfg: MuxCfg, role: Role, lk: Link, c: char, now: real)
    requires LinkOk(role, lk)
    ensures var r := ByteReceived(cfg, role, lk, c, now);
            Keeps(role, lk, r) && NoNewSync(lk, r.link) && r.link.active == lk.active
  {
    hide LineReceived, LinkOk, IsUp, NoNewSync;
    var b := Stored(lk.rx, c);
    BufferAside(role, lk, b);
    if c == '\n' {
      var line := Line(b);
      LineKeeps(cfg, role, lk.(rx := b), line, now);
      ActiveUnchanged(cfg, role, lk.(rx := b), true, 0, line, now);
      BufferAside(role, LineReceived(cfg, role, lk.(rx := b), line, now).link, "");
    } else {
      NoNewSyncAtAll(lk);
    }
  }

  lemma NoNewSyncAtAll(lk: Link)
    ensures NoNewSync(lk, lk)
  {
  }

  lemma NoNewSyncThen(a: Link, b: Link, c: Link)
    requires NoNewSync(a, b) && NoNewSync(b, c)
    ensures NoNewSync(a, c)
  {
  }

  lemma {:induction false} BytesKeep(cfg: MuxCfg, role: Role, lk: Link, data: string, now: real)
    requires LinkOk(role, lk)
    ensures var r := BytesReceived(cfg, role, lk, data, now);
            Keeps(role, lk, r) && NoNewSync(lk, r.link) && r.link.active == lk.active
    decreases |data|
  {
    hide ByteReceived, LinkOk, IsUp, NoNewSync, UpDown;
    if data == "" {
      NoNewSyncAtAll(lk);
      NothingUpDown();
    } else {
      var n := |data| - 1;
      BytesKeep(cfg, role, lk, data[..n], now);
      var r := BytesReceived(cfg, role, lk, data[..n], now);
      var s := ByteReceived(cfg, role, r.link, data[n], now);
      ByteKeeps(cfg, role, r.link, data[n], now);
      NoNewSyncThen(lk, r.link, s.link);
      UpDownAppend(r.outs, s.outs);
    }
  }

  lemma NothingUpDown()
    ensures UpDown([]) == 0
  {
  }

  lemma ReconnectKeeps(role: Role, lk: Link, started: bool, now: real)
    requires LinkOk(role, lk) && lk.reconnect.At?
    ensures Keeps(role, lk, ReconnectFired(lk, started, now)) && NoNewSync(lk, ReconnectFired(lk, started, now).link)
  {
    StartConnectKeeps(lk.(reconnect := Off), started, now);
  }

  lemma KeepaliveKeeps(cfg: MuxCfg, role: Role, lk: Link, now: real)
    requires LinkOk(role, lk) && lk.keepalive.At?
    ensures Keeps(role, lk, KeepaliveFired(cfg, role, lk, now))
    ensures NoNewSync(lk, KeepaliveFired(cfg, role, lk, now).link)
  {
    TeardownKeeps(role, lk.(keepalive := Off), now);
    UpDownOne(KeepaliveSent(lk.sync));
    UpDownAppend([KeepaliveSent(lk.sync)], Teardown(role, lk.(keepalive := Off), now).outs);
  }

  lemma AcceptKeeps(cfg: MuxCfg, lk: Link, sync: nat, now: real)
    requires LinkOk(Inbound, lk) && lk.active
    ensures Keeps(Inbound, lk, Accepted(cfg, lk, sync, now))
    ensures Accepted(cfg, lk, sync, now).link.sync == sync
  {
    var torn := if lk.phase != Down then Teardown(Inbound, lk, now).outs else [];
    UpDownOne(Answer);
    UpDownOne(LinkUp);
    UpDownOne(LinkDown);
    UpDownAppend([Answer], [LinkUp]);
    assert [Answer] + [LinkUp] == [Answer, LinkUp];
    UpDownAppend(torn, [Answer, LinkUp]);
  }

  lemma ReconcileKeeps(l: LinkCfg, lk: Link, started: bool, now: real)
    requires LinkOk(l.role, lk)
    ensures Keeps(l.role, lk, Reconciled(l, lk, started, now)) && NoNewSync(lk, Reconciled(l, lk, started, now).link)
    ensures Reconciled(l, lk, started, now).link.active == l.enabled
  {
    if l.role == Outbound && l.enabled && !lk.active {
      StartConnectKeeps(lk.(active := true), started, now);
    } else if !l.enabled && lk.phase != Down {
      TeardownKeeps(l.role, lk.(active := false, reconnect := if l.role == Outbound then Off else lk.reconnect), now);
    }
  }

  lemma StartKeeps(l: LinkCfg, started: bool, now: real)
    ensures Keeps(l.role, UNUSED, Started(l, UNUSED, started, now))
            && NoNewSync(UNUSED, Started(l, UNUSED, started, now).link)
    ensures Started(l, UNUSED, started, now).link.active == l.enabled
  {
    StartConnectKeeps(UNUSED.(active := true), started, now);
  }

  lemma StopKeeps(role: Role, lk: Link, now: real)
    requires LinkOk(role, lk)
    ensures Keeps(role, lk, Stopped(role, lk, now)) && NoNewSync(lk, Stopped(role, lk, now).link)
    ensures !Stopped(role, lk, now).link.active
  {
    if lk.phase != Down {
      TeardownKeeps(role, lk.(active := false, reconnect := Off), now);
    }
  }

  // ---------- All links ----------

  /** The invariant of a state: every link in order, sources unique, and activity
      mirrors the configuration while running. */
  ghost predicate Ok(st: State) {
    && WellFormed(st) && Unique(st.links)
    && forall i: nat :: i < |st.links| ==> StageOk(st.stage, st.cfg.links[i], st.links[i])
  }

  predicate StageOk(stage: Stage, l: LinkCfg, lk: Link) {
    && LinkOk(l.role, lk)
    && (match stage
        case Built => lk == UNUSED
        case Running => lk.active == l.enabled
        case Finished => !lk.active)
  }

  /** In a sweep the links before `i` have been visited. */
  ghost predicate PartOk(st: State, i: nat, before: Stage) {
    && WellFormed(st) && Unique(st.links)
    && (forall j: nat :: j < |st.links| && j < i ==> StageOk(st.stage, st.cfg.links[j], st.links[j]))
    && (forall j: nat :: i <= j < |st.links| ==>
          LinkOk(st.cfg.links[j].role, st.links[j]) && (before == Built ==> st.links[j] == UNUSED))
  }

  predicate SweepsTo(e: Event, before: Stage, stage: Stage) {
    || (e.StartEvent? && before == Built && stage == Running)
    || (e.ReloadEvent? && before == Running && stage == Running)
    || (e.StopEvent? && before == Running && stage == Finished)
  }

  lemma SweepStepKeeps(st: State, i: nat, e: Event, before: Stage)
    requires PartOk(st, i, before) && i < |st.links| && SweepsTo(e, before, st.stage)
    requires e.StopEvent? || |e.started| == |st.links|
    ensures var r := SweepStep(st, i, e);
            StageOk(st.stage, st.cfg.links[i], r.link) && NoNewSync(st.links[i], r.link)
            && UpDown(r.outs) == IsUp(r.link) - IsUp(st.links[i])
  {
    hide LinkOk, Started, Reconciled, Stopped, NoNewSync, UpDown;
    match e
    case StartEvent(started, now) => StartKeeps(st.cfg.links[i], started[i], now);
    case ReloadEvent(_, started, now) => ReconcileKeeps(st.cfg.links[i], st.links[i], started[i], now);
    case StopEvent(now) => StopKeeps(st.cfg.links[i].role, st.links[i], now);
  }

  lemma {:induction false} SweepKeeps(st: State, i: nat, e: Event, before: Stage)
    requires PartOk(st, i, before) && i <= |st.links| && SweepsTo(e, before, st.stage)
    requires e.StopEvent? || |e.started| == |st.links|
    ensures Ok(Sweep(st, i, e).st)
    decreases |st.links| - i
  {
    hide SweepStep, StageOk, LinkOk, Unique;
    if i < |st.links| {
      var r := SweepStep(st, i, e);
      SweepStepKeeps(st, i, e, before);
      UpdateUnique(st.links, i, r.link);
      SweepKeeps(Update(st, i, r).st, i + 1, e, before);
    }
  }

  lemma UpdateOk(st: State, i: nat, lk: Link)
    requires Ok(st) && i < |st.links| && StageOk(st.stage, st.cfg.links[i], lk)
    requires NoNewSync(st.links[i], lk)
             || forall j: nat :: j < |st.links| && j != i && st.links[j].hasSync ==> st.links[j].sync != lk.sync
    ensures Ok(st.(links := st.links[i := lk]))
  {
    hide StageOk, Unique;
    UpdateUnique(st.links, i, lk);
  }

  lemma ActiveUnchanged(cfg: MuxCfg, role: Role, lk: Link, ok: bool, sync: nat, line: string, now: real)
    ensures ConnectFinished(lk, ok, sync, now).link.active == lk.active
    ensures LineReceived(cfg, role, lk, line, now).link.active == lk.active
    ensures Teardown(role, lk, now).link.active == lk.active
    ensures ReconnectFired(lk, ok, now).link.active == lk.active
    ensures KeepaliveFired(cfg, role, lk, now).link.active == lk.active
    ensures Accepted(cfg, lk, sync, now).link.active == lk.active
  {
    hide AnswerAccepted, Clipped, Dispatch;
  }

  /** Every event keeps the invariant. */
  lemma StepKeeps(st: State, e: Event)
    requires Ok(st) && Possible(st, e)
    ensures Ok(Step(st, e).st)
  {
    hide LinkOk, Unique, ConnectFinished, BytesReceived, Teardown, QuestionLid, QuestionSync, ReconnectFired,
         KeepaliveFired, Accepted, Sweep;
    match e {
      case StartEvent(_, _) => SweepKeeps(st.(stage := Running), 0, e, Built);
      case ConnectEvent(i, ok, sync, now) =>
        var role, lk := st.cfg.links[i].role, st.links[i];
        ConnectKeeps(role, lk, ok, sync, now);
        ActiveUnchanged(st.cfg, role, lk, ok, sync, "", now);
        if ok {
          FindMisses(st.links, sync, 0);
        }
        ConnectedSync(lk, ok, sync, now);
        UpdateOk(st, i, ConnectFinished(lk, ok, sync, now).link);
      case ReceiveEvent(i, data, now) =>
        var role, lk := st.cfg.links[i].role, st.links[i];
        BytesKeep(st.cfg, role, lk, data, now);
        UpdateOk(st, i, BytesReceived(st.cfg, role, lk, data, now).link);
      case ClosedEvent(i, now) =>
        var role, lk := st.cfg.links[i].role, st.links[i];
        OpenLink(role, lk);
        TeardownKeeps(role, lk, now);
        ActiveUnchanged(st.cfg, role, lk, true, 0, "", now);
        UpdateOk(st, i, Teardown(role, lk, now).link);
      case ReconnectEvent(i, ready, now) =>
        var role, lk := st.cfg.links[i].role, st.links[i];
        ReconnectKeeps(role, lk, ready, now);
        ActiveUnchanged(st.cfg, role, lk, ready, 0, "", now);
        UpdateOk(st, i, ReconnectFired(lk, ready, now).link);
      case KeepaliveTimerEvent(i, now) =>
        var role, lk := st.cfg.links[i].role, st.links[i];
        KeepaliveKeeps(st.cfg, role, lk, now);
        ActiveUnchanged(st.cfg, role, lk, true, 0, "", now);
        UpdateOk(st, i, KeepaliveFired(st.cfg, role, lk, now).link);
      case KeepaliveEvent(ssrc, ip, now) =>
        KeepaliveEventKeeps(st, ssrc, ip, now);
      case VoiceEvent(_, _, _, _) =>
      case QuestionEvent(ip, question, now) =>
        QuestionKeeps(st, ip, QuestionLid(question), QuestionSync(question), now);
      case ReloadEvent(enabled, _, _) =>
        ToggledPart(st, enabled);
        SweepKeeps(st.(cfg := st.cfg.(links := Toggled(st.cfg.links, enabled))), 0, e, Running);
      case StopEvent(_) => SweepKeeps(st.(stage := Finished), 0, e, Running);
    }
  }

  lemma ConnectedSync(lk: Link, ok: bool, sync: nat, now: real)
    ensures ok ==> ConnectFinished(lk, ok, sync, now).link.sync == sync
  {
  }

  lemma OpenLink(role: Role, lk: Link)
    requires LinkOk(role, lk) && lk.phase != Down
    ensures lk.active && !lk.reconnect.At?
  {
  }

  lemma ToggledPart(st: State, enabled: seq<bool>)
    requires Ok(st) && |enabled| == |st.links|
    ensures PartOk(st.(cfg := st.cfg.(links := Toggled(st.cfg.links, enabled))), 0, Running)
  {
    hide Unique;
    var cfg := st.cfg.(links := Toggled(st.cfg.links, enabled));
    forall j: nat | j < |st.links| ensures LinkOk(cfg.links[j].role, st.links[j]) {
      assert StageOk(st.stage, st.cfg.links[j], st.links[j]);
    }
  }

  lemma KeepaliveEventKeeps(st: State, ssrc: nat, ip: string, now: real)
    requires Ok(st) && st.stage == Running
    ensures Ok(OnKeepalive(st, ssrc, ip, now).st)
  {
    hide Unique;
    var i := FindBySync(st.links, ssrc, 0);
    if i >= 0 && st.cfg.links[i].remoteIp == ip {
      UpdateOk(st, i, st.links[i].(lastHeard := now));
    }
  }

  lemma QuestionKeeps(st: State, ip: string, lid: int, sync: nat, now: real)
    requires Ok(st) && st.stage == Running
    ensures Ok(OnQuestion(st, ip, lid, sync, now).st)
  {
    hide LinkOk, Unique, Accepted;
    var m := MatchInbound(st.cfg.links, ip, lid, 0);
    var collider := FindBySync(st.links, sync, 0);
    if m >= 0 && (collider < 0 || collider == m) {
      var lk := st.links[m];
      assert StageOk(st.stage, st.cfg.links[m], lk);
      AcceptKeeps(st.cfg, lk, sync, now);
      ActiveUnchanged(st.cfg, Inbound, lk, true, sync, "", now);
      NobodyElse(st.links, sync, m);
      UpdateOk(st, m, Accepted(st.cfg, lk, sync, now).link);
    }
  }

  /** When the lookup finds nobody, or only `m`, no other link holds the source. */
  lemma NobodyElse(links: seq<Link>, sync: nat, m: nat)
    requires Unique(links) && m < |links| && (FindBySync(links, sync, 0) < 0 || FindBySync(links, sync, 0) == m)
    ensures forall j: nat :: j < |links| && j != m && links[j].hasSync ==> links[j].sync != sync
  {
    if FindBySync(links, sync, 0) < 0 {
      FindMisses(links, sync, 0);
    } else {
      FindsFirst(links, sync, 0);
    }
  }
}
