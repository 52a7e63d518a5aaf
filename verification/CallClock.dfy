/** Time: idle calls end, and RTP slots follow the clock. */
module CallClock {
  import opened Bits
  import opened Burst
  import opened CallModel
  import opened CallRuns
  import opened CallTheorems
  import opened CallTraces
  import opened CcccAmbe
  import opened EmbeddedLc

  // ---------- Idle calls ----------

  /** No call has been without traffic for longer than the timeout. */
  ghost predicate NoneIdle(st: State, now: real) {
    forall i: nat :: i < |st.links| && st.links[i].hasCall ==> now - st.links[i].call.last <= 5.0
  }

  lemma IdleEnds(l: LinkConfig, rt: LinkRuntime, n: nat, now: real)
    requires rt.hasCall ==> rt.call.origin != NoOrigin
    ensures var rt' := Idle(l, rt, n, now).rt;
            rt'.hasCall ==> rt.hasCall && now - rt'.call.last <= 5.0 && rt'.call == rt.call
  {
    hide HeadTermPayload;
  }

  /** Every call record names its origin. */
  ghost predicate HasOrigins(st: State) {
    forall i: nat :: i < |st.links| && st.links[i].hasCall ==> st.links[i].call.origin != NoOrigin
  }

  lemma {:induction false} TickVisits(st: State, i: nat, now: real)
    requires WellFormed(st) && HasOrigins(st) && i <= |st.links|
    requires forall j: nat :: j < i && st.links[j].hasCall ==> now - st.links[j].call.last <= 5.0
    ensures NoneIdle(TickFrom(st, i, TickEvent(now)).st, now)
    decreases |st.links| - i
  {
    hide Idle;
    if i < |st.links| {
      var e := TickEvent(now);
      var o := OnLink(st, i, e);
      var l, rt, n := st.cfg.links[i], st.links[i], Count(st, i);
      IdleEnds(l, rt, n, now);
      assert o.st.links == st.links[i := Idle(l, rt, n, now).rt];
      TickVisits(o.st, i + 1, now);
    }
  }

  lemma AgreementNamesOrigin(l: LinkConfig, rt: LinkRuntime, last: Out)
    requires Agrees(l, rt, last) && rt.hasCall
    ensures rt.call.origin != NoOrigin
  {
    hide CallLc, EncodeEmb;
  }

  /** After a tick, in any reachable state, no call has been idle for more than
      five seconds: a call whose end was lost is ended by the tick. */
  lemma TickEndsIdleCalls(cfg: Config, events: seq<Event>, now: real)
    requires Resolved(cfg) && Feasible(Start(cfg), events)
    ensures NoneIdle(Step(Run(Start(cfg), events).st, TickEvent(now)).st, now)
  {
    hide Run, Feasible, Agrees, LinkTrace, Bracketed, TickFrom;
    CallsAreBracketed(cfg, events);
    var o := Run(Start(cfg), events);
    forall i: nat | i < |o.st.links| && o.st.links[i].hasCall ensures o.st.links[i].call.origin != NoOrigin {
      var t := LinkTrace(o.sent, i);
      assert LinkTraced(o.st.cfg.links[i], o.st.links[i], t);
      AgreementNamesOrigin(o.st.cfg.links[i], o.st.links[i], Before(t, |t|));
    }
    TickVisits(o.st, 0, now);
  }

  // ---------- Ended calls ----------

  lemma LastFrameOpen(l: LinkConfig, rt: LinkRuntime, last: Out)
    requires Agrees(l, rt, last)
    ensures InCall(rt, CcOrigin) <==> last.Obp? && !IsTerm(last)
    ensures InCall(rt, ObpOrigin) <==> last.Bon? || last.Voice?
  {
    hide CallLc, EncodeEmb;
  }

  /** Over any run every HEAD of a link has had its one TERM, except that of a
      cc-origin call still up, and an obp-origin call is up exactly when the last
      request was a B-on or voice. */
  lemma EveryEndedCallHasOneTerm(cfg: Config, events: seq<Event>, i: nat)
    requires Resolved(cfg) && Feasible(Start(cfg), events) && i < |Run(Start(cfg), events).st.links|
    ensures var o := Run(Start(cfg), events);
            var t, rt := LinkTrace(o.sent, i), o.st.links[i];
            && Heads(t) == Terms(t) + (if InCall(rt, CcOrigin) then 1 else 0)
            && (InCall(rt, ObpOrigin) <==> Before(t, |t|).Bon? || Before(t, |t|).Voice?)
  {
    hide Run, Feasible, Agrees, LinkTrace, Bracketed, Heads, Terms;
    CallsAreBracketed(cfg, events);
    var o := Run(Start(cfg), events);
    var t := LinkTrace(o.sent, i);
    assert LinkTraced(o.st.cfg.links[i], o.st.links[i], t);
    LastFrameOpen(o.st.cfg.links[i], o.st.links[i], Before(t, |t|));
    OneTermPerHead(o.st.cfg.links[i], t);
  }

  // ---------- Slots ----------

  lemma SlotMonotone(start: real, a: real, b: real)
    requires start <= a <= b
    ensures 0 <= SlotIndex(start, a) <= SlotIndex(start, b)
  {
    assert 0.0 <= (a - start) / SLOT_S <= (b - start) / SLOT_S;
  }

  /** The readings an event takes of the clock never go back. */
  predicate Forward(e: Event, clock: real) {
    match e
    case CcBonEvent(_, _, _, _, now) => clock <= now
    case CcVoiceEvent(_, _, now) => clock <= now
    case DmrdEvent(_, _, now, now2) => clock <= now <= now2
    case TickEvent(now) => clock <= now
    case _ => true
  }

  function ClockAfter(e: Event, clock: real): real {
    match e
    case CcBonEvent(_, _, _, _, now) => now
    case CcVoiceEvent(_, _, now) => now
    case DmrdEvent(_, _, _, now2) => now2
    case TickEvent(now) => now
    case _ => clock
  }

  predicate Monotone(events: seq<Event>, clock: real)
    decreases |events|
  {
    events == [] || (Forward(events[0], clock) && Monotone(events[1..], ClockAfter(events[0], clock)))
  }

  /** The record of an obp-origin call is not ahead of the clock. */
  predicate LinkClocked(rt: LinkRuntime, clock: real) {
    InCall(rt, ObpOrigin) ==>
      rt.call.start <= clock && (rt.call.sentFirst ==> 0 <= rt.call.slot <= SlotIndex(rt.call.start, clock))
  }

  ghost predicate LinkSlots(rt: LinkRuntime, t: seq<Out>, clock: real) {
    && LinkClocked(rt, clock) && SlotsGrow(t)
    && (InCall(rt, ObpOrigin) ==>
          if rt.call.sentFirst then Before(t, |t|).Voice? && Before(t, |t|).slot == rt.call.slot
          else Before(t, |t|).Bon?)
  }

  /** A result that starts no obp-origin call and sends no voice. */
  predicate Silent(rt: LinkRuntime, r: Result) {
    && (forall k: nat :: k < |r.outs| ==> !r.outs[k].Voice?)
    && (InCall(r.rt, ObpOrigin) ==> InCall(rt, ObpOrigin) && r.rt.call == rt.call && r.outs == [])
  }

  lemma SilentKeeps(rt: LinkRuntime, t: seq<Out>, clock: real, r: Result, later: real)
    requires LinkSlots(rt, t, clock) && clock <= later && Silent(rt, r)
    ensures LinkSlots(r.rt, t + r.outs, later)
  {
    if InCall(r.rt, ObpOrigin) {
      SlotMonotone(rt.call.start, clock, later);
      assert t + r.outs == t;
    }
    hide SlotIndex;
    var u := t + r.outs;
    forall k: nat | k < |u| && u[k].Voice?
      ensures u[k].slot >= 0 && (Before(u, k).Voice? ==> Before(u, k).slot <= u[k].slot)
    {
      assert k < |t| && t[k].Voice? && Before(u, k) == Before(t, k);
    }
  }

  lemma SendIsSilent(l: LinkConfig, call: Call, n: nat, flags: Byte, payload: Payload33)
    ensures forall k: nat :: k < |SendDmrd(l, call, n, flags, payload)| ==>
              !SendDmrd(l, call, n, flags, payload)[k].Voice?
  {
  }

  lemma EndIsSilent(l: LinkConfig, rt: LinkRuntime, n: nat)
    ensures Silent(rt, EndCcCall(l, rt, n)) && Silent(rt, LinkDown(l, rt, n))
  {
    hide SendDmrd, HeadTermPayload;
    SendIsSilent(l, rt.call, n, DMRD_VTERM, HeadTermPayload(rt.call.lc, true));
  }

  lemma CcIsSilent(l: LinkConfig, open: bool, rt: LinkRuntime, n: nat, radio: nat, peerId: nat, stream: Stream,
                   ambe21: Ambe21, now: real)
    ensures Silent(rt, CcBon(l, open, rt, n, radio, peerId, stream, now))
    ensures Silent(rt, CcVoice(l, rt, n, ambe21, now))
  {
    hide SendDmrd, HeadTermPayload, VoicePayload, VoiceFlags, EncodeEmb, CallLc;
    var call := CcCall(l, radio, peerId, stream, now);
    SendIsSilent(l, call, n, DMRD_VHEAD, HeadTermPayload(call.lc, false));
    var pos := rt.call.pos % 6;
    SendIsSilent(l, rt.call, n, VoiceFlags(pos), VoicePayload(rt.call.emb, pos, ambe21));
  }

  lemma HeadSlots(l: LinkConfig, rt: LinkRuntime, t: seq<Out>, clock: real, d: Dmrd, now: real)
    requires LinkSlots(rt, t, clock) && clock <= now
    ensures var r := ObpHead(l, rt, d, now); LinkSlots(r.rt, t + r.outs, now)
  {
    hide SlotIndex;
    var r := ObpHead(l, rt, d, now);
    var u := t + r.outs;
    if r.outs == [] {
      assert Silent(rt, r);
      SilentKeeps(rt, t, clock, r, now);
    } else {
      forall k: nat | k < |u| && u[k].Voice?
        ensures u[k].slot >= 0 && (Before(u, k).Voice? ==> Before(u, k).slot <= u[k].slot)
      {
        assert k < |t| && t[k].Voice? && Before(u, k) == Before(t, k);
      }
    }
  }

  lemma BurstSlots(rt: LinkRuntime, t: seq<Out>, clock: real, d: Dmrd, now: real, now2: real)
    requires LinkSlots(rt, t, clock) && clock <= now <= now2
    ensures var r := ObpBurst(rt, d, now, now2); LinkSlots(r.rt, t + r.outs, now2)
  {
    hide SlotIndex, Packed, ExtractedAmbe, RtpSeq, RtpTimestamp;
    var r := ObpBurst(rt, d, now, now2);
    var u := t + r.outs;
    if r.outs == [] {
      SilentKeeps(rt, t, clock, r, now2);
    } else {
      SlotMonotone(rt.call.start, clock, now2);
      forall k: nat | k < |u| && u[k].Voice?
        ensures u[k].slot >= 0 && (Before(u, k).Voice? ==> Before(u, k).slot <= u[k].slot)
      {
        if k < |t| {
          assert t[k].Voice? && Before(u, k) == Before(t, k);
        } else {
          assert Before(u, k) == Before(t, |t|);
        }
      }
    }
  }

  lemma ReceivedSlots(l: LinkConfig, open: bool, rt: LinkRuntime, t: seq<Out>, clock: real, d: Dmrd, now: real,
                      now2: real)
    requires LinkSlots(rt, t, clock) && clock <= now <= now2
    ensures var r := ObpReceived(l, open, rt, d, now, now2); LinkSlots(r.rt, t + r.outs, now2)
  {
    hide SlotIndex, KindOf, ObpHead, ObpBurst, SlotsGrow;
    var kind := KindOf(d.flags);
    var rt' := if kind == HeadKind then rt.(dropLogged := false) else rt;
    assert LinkSlots(rt', t, clock);
    if kind == Ignored || !l.enabled || !open {
      SilentKeeps(rt, t, clock, ObpReceived(l, open, rt, d, now, now2), now2);
    } else if kind == HeadKind {
      HeadSlots(l, rt', t, clock, d, now);
      var r := ObpHead(l, rt', d, now);
      SilentKeeps(r.rt, t + r.outs, now, Result(r.rt, []), now2);
      assert t + r.outs + [] == t + r.outs;
    } else if kind == TermKind {
      SilentKeeps(rt', t, clock, ObpTerm(rt', d), now2);
    } else {
      BurstSlots(rt', t, clock, d, now, now2);
    }
  }

  lemma StepSlots(st: State, i: nat, e: Event, t: seq<Out>, clock: real)
    requires WellFormed(st) && i < |st.links| && LinkSlots(st.links[i], t, clock) && Forward(e, clock)
    ensures var r := LinkStep(st, i, e); LinkSlots(r.rt, t + r.outs, ClockAfter(e, clock))
  {
    hide CcBon, CcVoice, EndCcCall, LinkDown, ObpReceived, LinkSlots, GateOpen;
    var l, rt, n := st.cfg.links[i], st.links[i], Count(st, i);
    var open := GateOpen(st.cfg, l);
    match e
    case CcBonEvent(_, radio, peerId, stream, now) =>
      CcIsSilent(l, open, rt, n, radio, peerId, stream, seq(21, _ => 0), now);
      SilentKeeps(rt, t, clock, CcBon(l, open, rt, n, radio, peerId, stream, now), now);
    case CcVoiceEvent(_, ambe21, now) =>
      CcIsSilent(l, open, rt, n, 0, 0, [0, 0, 0, 0], ambe21, now);
      SilentKeeps(rt, t, clock, CcVoice(l, rt, n, ambe21, now), now);
    case CcBoffEvent(_) =>
      EndIsSilent(l, rt, n);
      SilentKeeps(rt, t, clock, EndCcCall(l, rt, n), clock);
    case LinkUpEvent(_) =>
      SilentKeeps(rt, t, clock, Result(rt.(dropLogged := false), []), clock);
    case LinkDownEvent(_) =>
      EndIsSilent(l, rt, n);
      SilentKeeps(rt, t, clock, LinkDown(l, rt, n), clock);
    case DmrdEvent(_, frame, now, now2) =>
      ReceivedSlots(l, open, rt, t, clock, frame, now, now2);
    case TickEvent(now) =>
      EndIsSilent(l, rt, n);
      SilentKeeps(rt, t, clock, Idle(l, rt, n, now), now);
    case ReloadEvent(_) =>
      SilentKeeps(rt, t, clock, Result(rt, []), clock);
  }

  ghost predicate AllSlots(st: State, trace: seq<Sent>, clock: real) {
    WellFormed(st) && forall i: nat :: i < |st.links| ==> LinkSlots(st.links[i], LinkTrace(trace, i), clock)
  }

  lemma LaterSlots(rt: LinkRuntime, t: seq<Out>, clock: real, later: real)
    requires LinkSlots(rt, t, clock) && clock <= later
    ensures LinkSlots(rt, t, later)
  {
    hide SlotIndex, SlotsGrow;
    SilentKeeps(rt, t, clock, Result(rt, []), later);
    assert t + [] == t;
  }

  lemma AllLater(st: State, trace: seq<Sent>, clock: real, later: real)
    requires AllSlots(st, trace, clock) && clock <= later
    ensures AllSlots(st, trace, later)
  {
    hide LinkSlots, LinkTrace;
    forall i: nat | i < |st.links| ensures LinkSlots(st.links[i], LinkTrace(trace, i), later) {
      LaterSlots(st.links[i], LinkTrace(trace, i), clock, later);
    }
  }

  /** One link takes part in an event, the clock moves on for all. */
  lemma OnLinkSlots(st: State, i: nat, e: Event, trace: seq<Sent>, clock: real)
    requires AllSlots(st, trace, clock) && i < |st.links| && Forward(e, clock)
    ensures var o := OnLink(st, i, e); AllSlots(o.st, trace + o.sent, ClockAfter(e, clock))
  {
    hide LinkStep, LinkSlots, LinkTrace, Tagged, Bumped;
    var o, r := OnLink(st, i, e), LinkStep(st, i, e);
    forall j: nat | j < |st.links|
      ensures LinkSlots(o.st.links[j], LinkTrace(trace + o.sent, j), ClockAfter(e, clock))
    {
      LinkTraceAppend(trace, o.sent, j);
      TaggedLink(i, r.outs, j);
      if j == i {
        StepSlots(st, i, e, LinkTrace(trace, i), clock);
      } else {
        LaterSlots(st.links[j], LinkTrace(trace, j), clock, ClockAfter(e, clock));
        assert LinkTrace(trace, j) + [] == LinkTrace(trace, j);
      }
    }
  }

  lemma {:induction false} TickSlots(st: State, i: nat, now: real, trace: seq<Sent>)
    requires AllSlots(st, trace, now) && i <= |st.links|
    ensures var o := TickFrom(st, i, TickEvent(now)); AllSlots(o.st, trace + o.sent, now)
    decreases |st.links| - i
  {
    hide OnLink, LinkSlots, LinkTrace;
    var e := TickEvent(now);
    if i == |st.links| {
      assert trace + [] == trace;
    } else {
      var o := OnLink(st, i, e);
      assert |o.st.links| == |st.links| by { OnLinkLength(st, i, e); }
      OnLinkSlots(st, i, e, trace, now);
      TickSlots(o.st, i + 1, now, trace + o.sent);
      var rest := TickFrom(o.st, i + 1, e);
      assert trace + (o.sent + rest.sent) == (trace + o.sent) + rest.sent;
    }
  }

  lemma StepAllSlots(st: State, e: Event, trace: seq<Sent>, clock: real)
    requires AllSlots(st, trace, clock) && Possible(st, e) && Forward(e, clock)
    ensures var o := Step(st, e); AllSlots(o.st, trace + o.sent, ClockAfter(e, clock))
  {
    hide OnLink, TickFrom, LinkSlots, LinkTrace, Route;
    assert trace + [] == trace;
    match e {
      case DmrdEvent(peer, frame, _, now2) =>
        var i := Route(st.cfg.links, peer, frame.dst, 0);
        if i >= 0 {
          OnLinkSlots(st, i, e, trace, clock);
        } else {
          AllLater(st, trace, clock, now2);
        }
      case TickEvent(now) =>
        AllLater(st, trace, clock, now);
        TickSlots(st, 0, now, trace);
      case ReloadEvent(cfg) =>
      case _ => OnLinkSlots(st, e.link, e, trace, clock);
    }
  }

  lemma {:induction false} RunSlots(st: State, events: seq<Event>, trace: seq<Sent>, clock: real)
    requires AllSlots(st, trace, clock) && Feasible(st, events) && Monotone(events, clock)
    ensures forall i: nat :: i < |Run(st, events).st.links| ==> SlotsGrow(LinkTrace(trace + Run(st, events).sent, i))
    decreases |events|
  {
    hide LinkTrace, Step, Possible, Forward, ClockAfter, SlotsGrow, LinkClocked;
    if events == [] {
      assert trace + [] == trace;
    } else {
      var first := Step(st, events[0]);
      StepAllSlots(st, events[0], trace, clock);
      RunSlots(first.st, events[1..], trace + first.sent, ClockAfter(events[0], clock));
      var rest := Run(first.st, events[1..]);
      assert trace + (first.sent + rest.sent) == (trace + first.sent) + rest.sent;
    }
  }

  /** Over any run with a clock that never goes back, the slots of each call are
      non-negative and never go back. */
  lemma SlotsFollowTheClock(cfg: Config, events: seq<Event>, clock: real, i: nat)
    requires Resolved(cfg) && Feasible(Start(cfg), events) && Monotone(events, clock) && i < |cfg.links|
    ensures SlotsGrow(LinkTrace(Run(Start(cfg), events).sent, i))
  {
    hide Run, Feasible, Monotone;
    var st := Start(cfg);
    RunSlots(st, events, [], clock);
    assert [] + Run(st, events).sent == Run(st, events).sent;
  }

  /** Over any run with such a clock: two packets of a call less than 65536 slots apart
      have timestamps 480 apart, modulo 2^32, for every step of the sequence number
      modulo 2^16, and the later one is not in an earlier slot. */
  lemma RtpFollowsTheClock(cfg: Config, events: seq<Event>, clock: real, i: nat, a: nat, b: nat)
    requires Resolved(cfg) && Feasible(Start(cfg), events) && Monotone(events, clock) && i < |cfg.links|
    requires var t := LinkTrace(Run(Start(cfg), events).sent, i);
             a <= b < |t| && (forall k: nat :: a <= k <= b ==> t[k].Voice?) && t[b].slot - t[a].slot < 0x1_0000
    ensures var t := LinkTrace(Run(Start(cfg), events).sent, i);
            && 0 <= t[a].slot <= t[b].slot
            && (t[b].timestamp - t[a].timestamp) % 0x1_0000_0000 == 480 * ((t[b].seqNo - t[a].seqNo) % 0x1_0000)
  {
    hide Run, Feasible, Monotone, Agrees, LinkTrace, Bracketed, SlotsGrow;
    var o := Run(Start(cfg), events);
    var t := LinkTrace(o.sent, i);
    CallsAreBracketed(cfg, events);
    assert LinkTraced(o.st.cfg.links[i], o.st.links[i], t);
    SlotsFollowTheClock(cfg, events, clock, i);
    SlotsOrdered(t, a, b);
    RtpConsistent(o.st.cfg.links[i], t, a, b);
  }
}
