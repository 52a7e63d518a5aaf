/** Frame numbering toward the OpenBridge peers. */
module CallNumbers {
  import opened Bits
  import opened Burst
  import opened CallModel
  import opened CallRuns
  import opened CallTheorems
  import opened CcccAmbe

  /** At most the first request of an event is a frame, and it carries the count
      of its peer. */
  ghost predicate OneNumbered(l: LinkConfig, n: nat, outs: seq<Out>) {
    && (forall k: nat :: k < |outs| && outs[k].Obp? ==> k == 0)
    && (outs != [] && outs[0].Obp? ==> outs[0].peer == l.peer && outs[0].frame.seqNo == n % 256)
  }

  lemma SendNumbered(l: LinkConfig, call: Call, n: nat, flags: Byte, payload: Payload33)
    ensures OneNumbered(l, n, SendDmrd(l, call, n, flags, payload))
    ensures |SendDmrd(l, call, n, flags, payload)| <= 1
  {
  }

  lemma EndNumbered(l: LinkConfig, rt: LinkRuntime, n: nat)
    ensures OneNumbered(l, n, EndCcCall(l, rt, n).outs) && |EndCcCall(l, rt, n).outs| <= 1
  {
    hide OneNumbered, SendDmrd, HeadTermPayload;
    SendNumbered(l, rt.call, n, DMRD_VTERM, HeadTermPayload(rt.call.lc, true));
    NothingNumbered(l, n);
  }

  lemma NothingNumbered(l: LinkConfig, n: nat)
    ensures OneNumbered(l, n, [])
  {
  }

  lemma DownNumbered(l: LinkConfig, n: nat, outs: seq<Out>)
    requires OneNumbered(l, n, outs) && |outs| <= 1
    ensures OneNumbered(l, n, outs + [Down])
  {
  }

  lemma ObpNumbered(l: LinkConfig, n: nat, open: bool, rt: LinkRuntime, d: Dmrd, now: real, now2: real)
    ensures OneNumbered(l, n, ObpReceived(l, open, rt, d, now, now2).outs)
  {
    hide KindOf, SlotIndex, Packed, ExtractedAmbe, IsFragments;
  }

  lemma CcBonNumbered(l: LinkConfig, open: bool, rt: LinkRuntime, n: nat, radio: nat, peerId: nat, stream: Stream,
                      now: real)
    ensures OneNumbered(l, n, CcBon(l, open, rt, n, radio, peerId, stream, now).outs)
  {
    hide OneNumbered, SendDmrd, HeadTermPayload, CcCall;
    var call := CcCall(l, radio, peerId, stream, now);
    SendNumbered(l, call, n, DMRD_VHEAD, HeadTermPayload(call.lc, false));
    NothingNumbered(l, n);
  }

  lemma CcVoiceNumbered(l: LinkConfig, rt: LinkRuntime, n: nat, ambe21: Ambe21, now: real)
    ensures OneNumbered(l, n, CcVoice(l, rt, n, ambe21, now).outs)
  {
    hide OneNumbered, SendDmrd, VoicePayload, VoiceFlags;
    SendNumbered(l, rt.call, n, VoiceFlags(rt.call.pos % 6), VoicePayload(rt.call.emb, rt.call.pos % 6, ambe21));
    NothingNumbered(l, n);
  }

  lemma StepNumbered(st: State, i: nat, e: Event)
    requires WellFormed(st) && i < |st.links|
    ensures OneNumbered(st.cfg.links[i], Count(st, i), LinkStep(st, i, e).outs)
  {
    hide CcBon, CcVoice, EndCcCall, ObpReceived, OneNumbered, GateOpen;
    var l, rt, n := st.cfg.links[i], st.links[i], Count(st, i);
    var open := GateOpen(st.cfg, l);
    NothingNumbered(l, n);
    match e
    case CcBonEvent(_, radio, peerId, stream, now) => CcBonNumbered(l, open, rt, n, radio, peerId, stream, now);
    case CcVoiceEvent(_, ambe21, now) => CcVoiceNumbered(l, rt, n, ambe21, now);
    case CcBoffEvent(_) => EndNumbered(l, rt, n);
    case LinkUpEvent(_) =>
    case LinkDownEvent(_) => EndNumbered(l, rt, n); DownNumbered(l, n, EndCcCall(l, rt, n).outs);
    case DmrdEvent(_, frame, now, now2) => ObpNumbered(l, n, open, rt, frame, now, now2);
    case TickEvent(now) => EndNumbered(l, rt, n); EndObpNumbered(l, n, rt);
    case ReloadEvent(_) =>
  }

  lemma EndObpNumbered(l: LinkConfig, n: nat, rt: LinkRuntime)
    ensures OneNumbered(l, n, EndObpCall(rt).outs)
  {
  }

  // ---------- Effect on the counters ----------

  lemma {:induction false} NoFrames(i: nat, outs: seq<Out>, ctr: seq<nat>, p: nat)
    requires forall k: nat :: k < |outs| ==> !outs[k].Obp?
    ensures Bumped(ctr, outs) == ctr && PeerTrace(Tagged(i, outs), p) == []
    decreases |outs|
  {
    if outs != [] {
      NoBump(outs, ctr);
      var init := outs[..|outs| - 1];
      assert Tagged(i, outs)[..|outs| - 1] == Tagged(i, init);
      NoFrames(i, init, ctr, p);
    }
  }

  lemma {:induction false} NoBump(outs: seq<Out>, ctr: seq<nat>)
    requires forall k: nat :: k < |outs| ==> !outs[k].Obp?
    ensures Bumped(ctr, outs) == ctr
    decreases |outs|
  {
    if outs != [] {
      NoBump(outs[1..], ctr);
    }
  }

  lemma FirstFrame(i: nat, outs: seq<Out>, ctr: seq<nat>, p: nat)
    requires outs != [] && outs[0].Obp? && outs[0].peer < |ctr|
    requires forall k: nat :: 0 < k < |outs| ==> !outs[k].Obp?
    ensures Bumped(ctr, outs) == ctr[outs[0].peer := ctr[outs[0].peer] + 1]
    ensures PeerTrace(Tagged(i, outs), p) == if outs[0].peer == p then [outs[0].frame] else []
  {
    var rest := outs[1..];
    NoFrames(i, rest, ctr[outs[0].peer := ctr[outs[0].peer] + 1], p);
    assert Tagged(i, outs) == Tagged(i, [outs[0]]) + Tagged(i, rest);
    PeerTraceAppend(Tagged(i, [outs[0]]), Tagged(i, rest), p);
    assert Tagged(i, [outs[0]])[..0] == [];
    SingleFrame(i, outs[0], p);
  }

  lemma SingleFrame(i: nat, o: Out, p: nat)
    requires o.Obp?
    ensures PeerTrace(Tagged(i, [o]), p) == if o.peer == p then [o.frame] else []
  {
    var t := Tagged(i, [o]);
    assert t == [Sent(i, o)] && t[..|t| - 1] == [];
    assert PeerTrace([], p) == [];
  }

  lemma OneBump(ctr: seq<nat>, o: Out)
    requires o.Obp? && o.peer < |ctr|
    ensures Bumped(ctr, [o]) == ctr[o.peer := ctr[o.peer] + 1]
  {
    hide Tagged, PeerTrace;
    FirstFrame(0, [o], ctr, 0);
  }

  lemma {:induction false} BumpLast(ctr: seq<nat>, outs: seq<Out>, o: Out)
    requires !o.Obp?
    ensures Bumped(ctr, outs + [o]) == Bumped(ctr, outs)
    decreases |outs|
  {
    if outs == [] {
      assert ([] + [o])[1..] == [];
    } else {
      assert (outs + [o])[1..] == outs[1..] + [o];
      assert (outs + [o])[0] == outs[0];
      BumpLast(if outs[0].Obp? && outs[0].peer < |ctr| then ctr[outs[0].peer := ctr[outs[0].peer] + 1] else ctr,
               outs[1..], o);
    }
  }

  // ---------- Runs ----------

  ghost predicate InOrder(frames: seq<Dmrd>) {
    forall k: nat :: k < |frames| ==> frames[k].seqNo == k % 256
  }

  /** Each peer's counter is the number of frames it was handed, and they are
      numbered from zero, modulo 256. */
  ghost predicate Counted(st: State, trace: seq<Sent>) {
    && WellFormed(st)
    && forall p: nat :: p < |st.ctr| ==> InOrder(PeerTrace(trace, p)) && |PeerTrace(trace, p)| == st.ctr[p]
  }

  lemma OnLinkCounts(st: State, i: nat, e: Event, trace: seq<Sent>)
    requires Counted(st, trace) && i < |st.links|
    ensures var o := OnLink(st, i, e); Counted(o.st, trace + o.sent)
  {
    hide LinkStep, PeerTrace, Tagged, Bumped;
    var o, outs := OnLink(st, i, e), LinkStep(st, i, e).outs;
    StepNumbered(st, i, e);
    forall p: nat | p < |o.st.ctr|
      ensures InOrder(PeerTrace(trace + o.sent, p)) && |PeerTrace(trace + o.sent, p)| == o.st.ctr[p]
    {
      PeerTraceAppend(trace, o.sent, p);
      if outs != [] && outs[0].Obp? {
        FirstFrame(i, outs, st.ctr, p);
      } else {
        NoFrames(i, outs, st.ctr, p);
        assert PeerTrace(trace, p) + [] == PeerTrace(trace, p);
      }
    }
  }

  lemma {:induction false} TickCounts(st: State, i: nat, e: Event, trace: seq<Sent>)
    requires Counted(st, trace) && i <= |st.links|
    ensures var o := TickFrom(st, i, e); Counted(o.st, trace + o.sent)
    decreases |st.links| - i
  {
    hide OnLink, PeerTrace, InOrder;
    if i == |st.links| {
      assert trace + [] == trace;
    } else {
      var o := OnLink(st, i, e);
      assert |o.st.links| == |st.links| by { OnLinkLength(st, i, e); }
      OnLinkCounts(st, i, e, trace);
      TickCounts(o.st, i + 1, e, trace + o.sent);
      var rest := TickFrom(o.st, i + 1, e);
      assert trace + (o.sent + rest.sent) == (trace + o.sent) + rest.sent;
    }
  }

  lemma StepCounts(st: State, e: Event, trace: seq<Sent>)
    requires Counted(st, trace) && Possible(st, e)
    ensures var o := Step(st, e); Counted(o.st, trace + o.sent)
  {
    hide OnLink, TickFrom, PeerTrace, InOrder, Route;
    assert trace + [] == trace;
    match e {
      case DmrdEvent(peer, frame, _, _) =>
        var i := Route(st.cfg.links, peer, frame.dst, 0);
        if i >= 0 {
          OnLinkCounts(st, i, e, trace);
        }
      case TickEvent(_) => TickCounts(st, 0, e, trace);
      case ReloadEvent(cfg) => ReloadResolved(st, cfg);
      case _ => OnLinkCounts(st, e.link, e, trace);
    }
  }

  lemma ReloadResolved(st: State, cfg: Config)
    requires WellFormed(st) && Reloads(st.cfg, cfg)
    ensures WellFormed(st.(cfg := cfg))
  {
  }

  lemma {:induction false} RunCounts(st: State, events: seq<Event>, trace: seq<Sent>)
    requires Counted(st, trace) && Feasible(st, events)
    ensures var o := Run(st, events); Counted(o.st, trace + o.sent)
    decreases |events|
  {
    hide PeerTrace, InOrder, Step, Possible;
    if events == [] {
      assert trace + [] == trace;
    } else {
      var first := Step(st, events[0]);
      StepCounts(st, events[0], trace);
      RunCounts(first.st, events[1..], trace + first.sent);
      var rest := Run(first.st, events[1..]);
      assert trace + (first.sent + rest.sent) == (trace + first.sent) + rest.sent;
    }
  }

  /** Over any run, the k-th frame handed to a peer carries k modulo 256, however
      the links that share the peer interleave. */
  lemma FramesAreNumbered(cfg: Config, events: seq<Event>, p: nat)
    requires Resolved(cfg) && Feasible(Start(cfg), events) && p < |cfg.peerEnabled|
    ensures InOrder(PeerTrace(Run(Start(cfg), events).sent, p))
  {
    hide Run, Feasible;
    var st := Start(cfg);
    RunCounts(st, events, []);
    assert [] + Run(st, events).sent == Run(st, events).sent;
  }
}
