/** The link multiplexer as the source runs it: handlers that update the link table
    in place.  Every handler does what MuxModel says. */
module LinkMux {
  import opened LineChannel
  import opened MuxModel
  import opened MuxRuns
  import opened Signalling
  import opened Text

  class CcccMux {
    var cfg: MuxCfg
    ghost var stage: Stage
    const links: array<Link>
    /** Messages and notices to the translator, in order. */
    ghost var trace: seq<Sent>

    constructor (config: MuxCfg)
      ensures Valid() && fresh(links) && Abs() == Unstarted(config) && trace == []
    {
      cfg := config;
      stage := Built;
      links := new Link[|config.links|](_ => UNUSED);
      trace := [];
    }

    ghost function Abs(): State
      reads this, links
    {
      State(cfg, stage, links[..])
    }

    ghost predicate Valid()
      reads this, links
    {
      WellFormed(Abs())
    }

    ghost predicate Done(before: seq<Sent>, o: Outcome)
      reads this, links
    {
      Abs() == o.st && trace == before + o.sent
    }

    ghost method Record(i: nat, o: Out)
      modifies this`trace
      ensures trace == old(trace) + [Sent(i, o)]
    {
      trace := trace + [Sent(i, o)];
    }

    // ---------- The sync source table ----------

    method FindLinkBySsrc(ssrc: nat) returns (k: int)
      ensures k == FindBySync(links[..], ssrc, 0)
    {
      for i := 0 to links.Length
        invariant FindBySync(links[..], ssrc, 0) == FindBySync(links[..], ssrc, i)
      {
        if links[i].hasSync && links[i].sync == ssrc {
          return i;
        }
      }
      k := -1;
    }

    /** Draw until a value comes up that no link holds. */
    method MintSyncSource(draws: seq<nat>) returns (sync: nat)
      requires exists k: nat :: k < |draws| && FindBySync(links[..], draws[k], 0) < 0
      ensures FindBySync(links[..], sync, 0) < 0 && sync in draws
    {
      var k: nat := 0;
      ghost var good: nat :| good < |draws| && FindBySync(links[..], draws[good], 0) < 0;
      while true
        invariant k <= good
        decreases good - k
      {
        sync := draws[k];
        var holder := FindLinkBySsrc(sync);
        if holder < 0 {
          return;
        }
        k := k + 1;
      }
    }

    // ---------- Teardown and reconnect ----------

    method TeardownLinkConnection(i: nat, now: real)
      requires Valid() && i < links.Length
      modifies this`trace, links
      ensures Done(old(trace), Update(old(Abs()), i, Teardown(cfg.links[i].role, old(links[i]), now)))
    {
      ghost var lk0 := links[i];
      var wasUp := links[i].phase == Up;
      links[i] := links[i].(keepalive := Off, phase := Down, hasSync := false, rx := "", answer := []);
      if wasUp {
        Record(i, LinkDown);
      }
      if cfg.links[i].role == Outbound && links[i].active {
        ScheduleReconnect(i, now);
      }
      ghost var r := Teardown(cfg.links[i].role, lk0, now);
      assert links[..] == old(links[..])[i := r.link];
      TaggedOnce(i, r.outs);
    }

    method ScheduleReconnect(i: nat, now: real)
      requires Valid() && i < links.Length
      modifies links
      ensures links[..] == old(links[..])[i := old(links[i]).(reconnect := At(now + RECONNECT_DELAY_S))]
    {
      links[i] := links[i].(reconnect := At(now + RECONNECT_DELAY_S));
    }

    method ReconnectCb(i: nat, ready: bool, now: real)
      requires Valid() && Possible(Abs(), ReconnectEvent(i, ready, now))
      modifies links
      ensures Done(old(trace), Step(old(Abs()), ReconnectEvent(i, ready, now)))
    {
      links[i] := links[i].(reconnect := Off);
      if links[i].active {
        StartOutboundConnect(i, ready, now);
      }
      assert trace + [] == trace;
    }

    method StartOutboundConnect(i: nat, started: bool, now: real)
      requires Valid() && i < links.Length
      modifies links
      ensures links[..] == old(links[..])[i := StartConnect(old(links[i]), started, now)]
    {
      links[i] := links[i].(rx := "", answer := [], hasSync := false);
      if !started {
        if links[i].active {
          ScheduleReconnect(i, now);
        }
        return;
      }
      links[i] := links[i].(phase := Connecting);
    }

    /** The attempt succeeded or failed; on success the Question goes out. */
    method OnConnectWritable(i: nat, ok: bool, draws: seq<nat>, now: real) returns (sync: nat)
      requires Valid() && stage == Running && i < links.Length && links[i].phase == Connecting
      requires exists k: nat :: k < |draws| && FindBySync(links[..], draws[k], 0) < 0
      modifies this`trace, links
      ensures Possible(old(Abs()), ConnectEvent(i, ok, sync, now))
      ensures Done(old(trace), Step(old(Abs()), ConnectEvent(i, ok, sync, now)))
    {
      if !ok {
        links[i] := links[i].(phase := Down);
        if links[i].active {
          ScheduleReconnect(i, now);
        }
        assert trace + [] == trace;
        return 0;
      }
      sync := MintSyncSource(draws);
      links[i] := links[i].(phase := Handshaking, sync := sync, hasSync := true);
      Record(i, Question(sync));
      TaggedOnce(i, [Question(sync)]);
    }

    // ---------- Handshake and lines ----------

    method ArmKeepalive(i: nat, now: real)
      requires Valid() && i < links.Length
      modifies links
      ensures links[..] == old(links[..])[i := Armed(cfg, old(links[i]), now)]
    {
      links[i] := links[i].(lastHeard := now, keepalive := At(now + cfg.interval));
    }

    method FinishOutboundHandshake(i: nat, now: real)
      requires Valid() && i < links.Length && |links[i].answer| >= 2
      modifies this`trace, links
      ensures Done(old(trace), Update(old(Abs()), i, FinishHandshake(cfg, cfg.links[i].role, old(links[i]), now)))
    {
      hide Teardown;
      ghost var st := Abs();
      var codec, ms := links[i].answer[0], Atoi(links[i].answer[1]);
      links[i] := links[i].(answer := []);
      if codec != "AMBE" || ms != 60 {
        TeardownLinkConnection(i, now);
        UpdateTwice(st, i, st.links[i].(answer := []), Teardown(cfg.links[i].role, st.links[i].(answer := []), now));
        return;
      }
      links[i] := links[i].(phase := Up);
      ArmKeepalive(i, now);
      Record(i, LinkUp);
      TaggedOnce(i, [LinkUp]);
    }

    /** A line while shaking hands; an established link's lines are dispatched. */
    method LinkOnLine(i: nat, line: string, now: real)
      requires Valid() && i < links.Length
      modifies this`trace, links
      ensures Done(old(trace), Update(old(Abs()), i, LineReceived(cfg, cfg.links[i].role, old(links[i]), line, now)))
    {
      hide FinishHandshake, Dispatch, Clipped;
      ghost var st, before := Abs(), trace;
      assert before + [] == before;
      if links[i].phase == Handshaking {
        if |links[i].answer| < ANSWER_NFIELDS {
          links[i] := links[i].(answer := links[i].answer + [Clipped(line)]);
        }
        ghost var next := links[i];
        if |links[i].answer| == ANSWER_NFIELDS {
          FinishOutboundHandshake(i, now);
          UpdateTwice(st, i, next, FinishHandshake(cfg, cfg.links[i].role, next, now));
        } else {
          assert links[..] == st.links[i := next];
        }
      } else if links[i].phase == Up {
        Record(i, Heard(Dispatch(line)));
        TaggedOnce(i, [Heard(Dispatch(line))]);
        assert st.links[i := st.links[i]] == st.links;
      } else {
        assert st.links[i := st.links[i]] == st.links;
      }
    }

    /** The bytes of one recv, one after the other. */
    method OnLinkReadable(i: nat, data: string, now: real)
      requires Valid() && Possible(Abs(), ReceiveEvent(i, data, now))
      modifies this`trace, links
      ensures Done(old(trace), Step(old(Abs()), ReceiveEvent(i, data, now)))
    {
      hide ByteReceived;
      ghost var st, role := Abs(), cfg.links[i].role;
      assert st.links[i := st.links[i]] == st.links && trace + [] == trace;
      for n := 0 to |data|
        invariant Valid() && links.Length == |st.links| && cfg == st.cfg && stage == st.stage
        invariant Done(old(trace), Update(st, i, BytesReceived(cfg, role, st.links[i], data[..n], now)))
      {
        ghost var r := BytesReceived(cfg, role, st.links[i], data[..n], now);
        assert data[..n + 1][..n] == data[..n];
        FeedByte(i, data[n], now);
        ThenUpdate(st, i, r, ByteReceived(cfg, role, r.link, data[n], now), old(trace));
      }
      assert data[..|data|] == data;
    }

    /** Store the byte; at a newline hand over the line and empty the buffer. */
    method FeedByte(i: nat, c: char, now: real)
      requires Valid() && i < links.Length
      modifies this`trace, links
      ensures Done(old(trace), Update(old(Abs()), i, ByteReceived(cfg, cfg.links[i].role, old(links[i]), c, now)))
    {
      hide LineReceived;
      ghost var st, before := Abs(), trace;
      if |links[i].rx| < RXBUF_CAP - 1 {
        links[i] := links[i].(rx := links[i].rx + [c]);
      }
      ghost var stored := links[i];
      assert stored == st.links[i].(rx := Stored(st.links[i].rx, c));
      if c == '\n' {
        var n := |links[i].rx| - 1;
        if n > 0 && links[i].rx[n - 1] == '\r' {
          n := n - 1;
        }
        var line := links[i].rx[..n];
        LinkOnLine(i, line, now);
        ghost var r := LineReceived(cfg, cfg.links[i].role, stored, line, now);
        UpdateTwice(st, i, stored, r);
        links[i] := links[i].(rx := "");
        UpdateTwice(st, i, r.link, Result(r.link.(rx := ""), r.outs));
      } else {
        assert links[..] == st.links[i := stored] && before + [] == before;
      }
    }

    method OnTcpClosed(i: nat, now: real)
      requires Valid() && Possible(Abs(), ClosedEvent(i, now))
      modifies this`trace, links
      ensures Done(old(trace), Step(old(Abs()), ClosedEvent(i, now)))
    {
      TeardownLinkConnection(i, now);
    }

    // ---------- Keepalive ----------

    method KeepaliveCb(i: nat, now: real)
      requires Valid() && Possible(Abs(), KeepaliveTimerEvent(i, now))
      modifies this`trace, links
      ensures Done(old(trace), Step(old(Abs()), KeepaliveTimerEvent(i, now)))
    {
      hide Teardown;
      ghost var st, before := Abs(), trace;
      assert before + [] == before;
      links[i] := links[i].(keepalive := Off);
      ghost var quiet := links[i];
      if links[i].phase != Up {
        return;
      }
      Record(i, KeepaliveSent(links[i].sync));
      var age := now - links[i].lastHeard;
      if age > cfg.timeout {
        TeardownLinkConnection(i, now);
        ghost var r := Teardown(cfg.links[i].role, quiet, now);
        UpdateTwice(st, i, quiet, r);
        TaggedCons(i, KeepaliveSent(quiet.sync), r.outs, before);
        return;
      }
      links[i] := links[i].(keepalive := At(now + cfg.interval));
      TaggedOnce(i, [KeepaliveSent(quiet.sync)]);
      assert links[..] == st.links[i := quiet.(keepalive := At(now + cfg.interval))];
    }

    /** A keepalive is stamped and reflected. */
    method OnKeepaliveReceived(ssrc: nat, ip: string, now: real)
      requires Valid() && stage == Running
      modifies this`trace, links
      ensures Done(old(trace), Step(old(Abs()), KeepaliveEvent(ssrc, ip, now)))
    {
      assert trace + [] == trace;
      var i := FindLinkBySsrc(ssrc);
      if i < 0 || cfg.links[i].remoteIp != ip {
        return;
      }
      links[i] := links[i].(lastHeard := now);
      Record(i, KeepaliveReflected(ssrc));
      TaggedOnce(i, [KeepaliveReflected(ssrc)]);
    }

    /** Voice goes to the translator for the link that holds the source. */
    method OnVoiceReceived(ssrc: nat, ip: string, payload: Payload, now: real)
      requires Valid() && stage == Running
      modifies this`trace
      ensures Done(old(trace), Step(old(Abs()), VoiceEvent(ssrc, ip, payload, now)))
    {
      assert trace + [] == trace;
      var i := FindLinkBySsrc(ssrc);
      if i < 0 || cfg.links[i].remoteIp != ip {
        return;
      }
      Record(i, VoicePassed(payload));
      TaggedOnce(i, [VoicePassed(payload)]);
    }

    // ---------- Inbound ----------

    method FindInbound(ip: string, lid: int) returns (m: int)
      ensures m == MatchInbound(cfg.links, ip, lid, 0)
    {
      for i := 0 to |cfg.links|
        invariant MatchInbound(cfg.links, ip, lid, 0) == MatchInbound(cfg.links, ip, lid, i)
      {
        var l := cfg.links[i];
        if l.role == Inbound && l.enabled && l.remoteIp == ip && l.lid == lid {
          return i;
        }
      }
      m := -1;
    }

    /** Accept, refuse on a collision, or replace the link's own old connection. */
    method HandleQuestionComplete(ip: string, question: seq<string>, now: real)
      requires Valid() && Possible(Abs(), QuestionEvent(ip, question, now))
      modifies this`trace, links
      ensures Done(old(trace), Step(old(Abs()), QuestionEvent(ip, question, now)))
    {
      var sync, lid := StrToHex32(Clipped(question[0])), Atoi(Clipped(question[1]));
      HandleQuestion(ip, lid, sync, now);
    }

    method HandleQuestion(ip: string, lid: int, sync: nat, now: real)
      requires Valid() && stage == Running
      modifies this`trace, links
      ensures Done(old(trace), OnQuestion(old(Abs()), ip, lid, sync, now))
    {
      hide Teardown, MatchInbound;
      ghost var st, before := Abs(), trace;
      assert before + [] == before;
      var m := FindInbound(ip, lid);
      if m < 0 {
        return;
      }
      var collider := FindLinkBySsrc(sync);
      if collider >= 0 && collider != m {
        return;
      }
      ghost var torn := [];
      if links[m].phase != Down {
        TeardownLinkConnection(m, now);
        torn := Teardown(Inbound, st.links[m], now).outs;
      }
      assert trace == before + Tagged(m, torn) && links[..] == st.links[m := links[m]];
      links[m] := links[m].(rx := "", answer := [], sync := sync, hasSync := true, phase := Up);
      Record(m, Answer);
      ArmKeepalive(m, now);
      Record(m, LinkUp);
      TaggedTwo(m, torn, Answer, LinkUp, before);
    }

    // ---------- Lifecycle ----------

    method StartMux(started: seq<bool>, now: real)
      requires Valid() && Possible(Abs(), StartEvent(started, now))
      modifies this, links
      ensures Done(old(trace), Step(old(Abs()), StartEvent(started, now)))
    {
      hide StartConnect;
      stage := Running;
      ghost var e := StartEvent(started, now);
      ghost var whole := Sweep(Abs(), 0, e);
      for i := 0 to links.Length
        invariant Valid() && links.Length == |cfg.links|
        invariant Sweep(Abs(), i, e).st == whole.st && trace + Sweep(Abs(), i, e).sent == old(trace) + whole.sent
      {
        SweepNext(Abs(), i, e, trace);
        ghost var was := links[..];
        var l := cfg.links[i];
        links[i] := links[i].(active := l.enabled);
        if l.role == Outbound && l.enabled {
          StartOutboundConnect(i, started[i], now);
        }
        assert links[..] == was[i := Started(l, was[i], started[i], now).link];
        assert trace + [] == trace;
      }
      assert trace + [] == trace;
    }

    /** After a reload: bring every link in line with its toggle. */
    method Reconcile(enabled: seq<bool>, started: seq<bool>, now: real)
      requires Valid() && Possible(Abs(), ReloadEvent(enabled, started, now))
      modifies this, links
      ensures Done(old(trace), Step(old(Abs()), ReloadEvent(enabled, started, now)))
    {
      cfg := cfg.(links := Toggled(cfg.links, enabled));
      ghost var e := ReloadEvent(enabled, started, now);
      ghost var whole := Sweep(Abs(), 0, e);
      for i := 0 to links.Length
        invariant Valid() && links.Length == |cfg.links| && |started| == links.Length
        invariant Sweep(Abs(), i, e).st == whole.st && trace + Sweep(Abs(), i, e).sent == old(trace) + whole.sent
      {
        SweepNext(Abs(), i, e, trace);
        ReconcileLink(i, started[i], now);
      }
      assert trace + [] == trace;
    }

    method ReconcileLink(i: nat, started: bool, now: real)
      requires Valid() && i < links.Length
      modifies this`trace, links
      ensures Done(old(trace), Update(old(Abs()), i, Reconciled(cfg.links[i], old(links[i]), started, now)))
    {
      hide Teardown, StartConnect;
      ghost var st, before := Abs(), trace;
      assert before + [] == before;
      var l := cfg.links[i];
      if l.role == Outbound {
        if l.enabled && !links[i].active {
          links[i] := links[i].(active := true);
          StartOutboundConnect(i, started, now);
        } else if !l.enabled && links[i].active {
          links[i] := links[i].(active := false, reconnect := Off);
          ghost var idle := links[i];
          if links[i].phase != Down {
            TeardownLinkConnection(i, now);
            UpdateTwice(st, i, idle, Teardown(Outbound, idle, now));
          }
        }
      } else {
        links[i] := links[i].(active := l.enabled);
        ghost var idle := links[i];
        if !l.enabled && links[i].phase != Down {
          TeardownLinkConnection(i, now);
          UpdateTwice(st, i, idle, Teardown(Inbound, idle, now));
        }
      }
      if trace == before {
        assert links[..] == st.links[i := links[i]];
      }
    }

    method StopMux(now: real)
      requires Valid() && Possible(Abs(), StopEvent(now))
      modifies this, links
      ensures Done(old(trace), Step(old(Abs()), StopEvent(now)))
    {
      stage := Finished;
      ghost var e := StopEvent(now);
      ghost var whole := Sweep(Abs(), 0, e);
      for i := 0 to links.Length
        invariant Valid() && links.Length == |cfg.links|
        invariant Sweep(Abs(), i, e).st == whole.st && trace + Sweep(Abs(), i, e).sent == old(trace) + whole.sent
      {
        SweepNext(Abs(), i, e, trace);
        StopLink(i, now);
      }
      assert trace + [] == trace;
    }

    method StopLink(i: nat, now: real)
      requires Valid() && i < links.Length
      modifies this`trace, links
      ensures Done(old(trace), Update(old(Abs()), i, Stopped(cfg.links[i].role, old(links[i]), now)))
    {
      hide Teardown;
      ghost var st, before := Abs(), trace;
      assert before + [] == before;
      links[i] := links[i].(active := false, reconnect := Off);
      ghost var idle := links[i];
      if links[i].phase != Down {
        TeardownLinkConnection(i, now);
        UpdateTwice(st, i, idle, Teardown(cfg.links[i].role, idle, now));
      } else {
        assert links[..] == st.links[i := idle];
      }
    }
  }

  // ---------- Small facts about updates ----------

  lemma TaggedOnce(i: nat, outs: seq<Out>)
    requires |outs| <= 1
    ensures Tagged(i, outs) == if outs == [] then [] else [Sent(i, outs[0])]
  {
  }

  lemma TaggedCons(i: nat, o: Out, outs: seq<Out>, before: seq<Sent>)
    ensures before + [Sent(i, o)] + Tagged(i, outs) == before + Tagged(i, [o] + outs)
  {
  }

  lemma TaggedTwo(i: nat, outs: seq<Out>, a: Out, b: Out, before: seq<Sent>)
    ensures before + Tagged(i, outs) + [Sent(i, a)] + [Sent(i, b)] == before + Tagged(i, outs + [a, b])
  {
  }

  lemma ThenUpdate(st: State, i: nat, r: Result, s: Result, before: seq<Sent>)
    requires i < |st.links|
    ensures var o := Update(st, i, Result(s.link, r.outs + s.outs));
            Update(Update(st, i, r).st, i, s).st == o.st
            && before + Update(st, i, r).sent + Tagged(i, s.outs) == before + o.sent
  {
  }

  lemma UpdateTwice(st: State, i: nat, lk: Link, r: Result)
    requires i < |st.links|
    ensures Update(st.(links := st.links[i := lk]), i, r) == Update(st, i, r)
  {
  }

  lemma SweepNext(st: State, i: nat, e: Event, before: seq<Sent>)
    requires WellFormed(st) && i < |st.links|
    requires e.StartEvent? || e.ReloadEvent? || e.StopEvent?
    requires e.StopEvent? || |e.started| == |st.links|
    ensures var o := Update(st, i, SweepStep(st, i, e));
            var rest := Sweep(o.st, i + 1, e);
            Sweep(st, i, e).st == rest.st && before + Sweep(st, i, e).sent == before + o.sent + rest.sent
  {
    hide SweepStep;
  }
}
