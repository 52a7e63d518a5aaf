/** The call translator: the link table, per-call state, and what is asked of the
    CC-CC and OpenBridge sides.  Every handler does what CallModel says. */
module Translator {
  import opened Bits
  import opened Burst
  import opened CallModel
  import opened CallNumbers
  import opened CallRuns
  import opened CcccAmbe
  import opened DmrdBody
  import opened EmbeddedLc

  class CallTranslator {
    var cfg: Config
    const link: array<LinkRuntime>
    const obpSeqCtr: array<nat>
    /** Requests in the order they were made, and link loss. */
    ghost var trace: seq<Sent>

    constructor (config: Config)
      requires Resolved(config)
      ensures Valid() && fresh(link) && fresh(obpSeqCtr) && trace == []
      ensures Abs() == Start(config)
    {
      cfg := config;
      link := new LinkRuntime[|config.links|](_ => LinkRuntime(false, NO_CALL, false));
      obpSeqCtr := new nat[|config.peerEnabled|](_ => 0);
      trace := [];
    }

    ghost function Abs(): State
      reads this, link, obpSeqCtr
    {
      State(cfg, link[..], obpSeqCtr[..])
    }

    ghost predicate Valid()
      reads this, link, obpSeqCtr
    {
      WellFormed(Abs())
    }

    /** From state `st` and trace `before`, link `i` has taken the step `r`. */
    ghost predicate Done(st: State, before: seq<Sent>, i: nat, r: Result)
      reads this, link, obpSeqCtr
      requires i < |st.links|
    {
      Abs() == Update(st, i, r) && trace == before + Tagged(i, r.outs)
    }

    ghost predicate DoneAll(before: seq<Sent>, o: Outcome)
      reads this, link, obpSeqCtr
    {
      Abs() == o.st && trace == before + o.sent
    }

    // ---------- Requests ----------

    ghost method Record(i: nat, o: Out)
      modifies this`trace
      ensures trace == old(trace) + [Sent(i, o)]
    {
      trace := trace + [Sent(i, o)];
    }

    /** What the OpenBridge side is asked to sign and send. */
    method ObpSendDmrd(i: nat, peer: nat, body: seq<Byte>, ghost frame: Dmrd)
      requires body == Body(frame)
      modifies this`trace
      ensures trace == old(trace) + [Sent(i, Obp(peer, frame))]
    {
      Record(i, Obp(peer, frame));
    }

    method SendDmrdFrame(i: nat, flags: Byte, payload33: Payload33)
      requires Valid() && i < link.Length
      modifies this`trace, obpSeqCtr
      ensures Done(old(Abs()), old(trace), i,
                   Result(link[i], SendDmrd(cfg.links[i], link[i].call, Count(old(Abs()), i), flags, payload33)))
    {
      hide Body, BodyOf;
      ghost var st, before := Abs(), trace;
      var l, call := cfg.links[i], link[i].call;
      ghost var outs := SendDmrd(l, call, Count(st, i), flags, payload33);
      if l.peer >= 0 {
        var n := obpSeqCtr[l.peer];
        obpSeqCtr[l.peer] := n + 1;
        var body := BuildBody(n, call.src, l.tgid, call.ccPeerId, flags, call.stream, payload33);
        BodyTruncates(n, call.src, l.tgid, call.ccPeerId, flags, call.stream, payload33);
        ObpSendDmrd(i, l.peer, body, DmrdFrame(l, call, n, flags, payload33));
        OneBump(st.ctr, outs[0]);
      }
      assert Tagged(i, outs) == if l.peer >= 0 then [Sent(i, outs[0])] else [];
      assert st.links[i := link[i]] == st.links;
    }

    method SendObpVoiceHead(i: nat)
      requires Valid() && i < link.Length
      modifies this`trace, obpSeqCtr
      ensures Done(old(Abs()), old(trace), i,
              Result(link[i], SendHead(cfg.links[i], link[i].call, Count(old(Abs()), i))))
    {
      hide HeadTermPayload, SendDmrd;
      var payload33 := BuildHeadTermPayload(link[i].call.lc, false);
      SendDmrdFrame(i, DMRD_VHEAD, payload33);
    }

    method SendObpVoiceTerm(i: nat)
      requires Valid() && i < link.Length
      modifies this`trace, obpSeqCtr
      ensures Done(old(Abs()), old(trace), i,
              Result(link[i], SendTerm(cfg.links[i], link[i].call, Count(old(Abs()), i))))
    {
      hide HeadTermPayload, SendDmrd;
      var payload33 := BuildHeadTermPayload(link[i].call.lc, true);
      SendDmrdFrame(i, DMRD_VTERM, payload33);
    }

    // ---------- Call lifecycle ----------

    method EndObpOriginCall(i: nat)
      requires Valid() && i < link.Length
      modifies this`trace, link
      ensures Done(old(Abs()), old(trace), i, EndObpCall(old(link[i])))
    {
      if !link[i].hasCall || link[i].call.origin != ObpOrigin {
        Nothing(Abs(), i, trace);
        return;
      }
      var total := if link[i].call.sentFirst then link[i].call.slot + 1 else 0;
      OneSend(i, Boff(0, total));
      NoBump([Boff(0, total)], obpSeqCtr[..]);
      Record(i, Boff(0, total));
      link[i] := link[i].(hasCall := false);
    }

    method EndCcOriginCall(i: nat)
      requires Valid() && i < link.Length
      modifies this`trace, link, obpSeqCtr
      ensures Done(old(Abs()), old(trace), i, EndCcCall(cfg.links[i], old(link[i]), Count(old(Abs()), i)))
    {
      hide SendTerm;
      if !link[i].hasCall || link[i].call.origin != CcOrigin {
        Nothing(Abs(), i, trace);
        return;
      }
      SendObpVoiceTerm(i);
      link[i] := link[i].(hasCall := false);
    }

    /** The gate; a closed one is logged once per attempt. */
    method ObpGateOpen(i: nat) returns (open: bool)
      requires Valid() && i < link.Length
      modifies link
      ensures open == GateOpen(cfg, cfg.links[i])
      ensures link[..] == old(link[..])[i := if open then old(link[i]) else old(link[i]).(dropLogged := true)]
    {
      var l := cfg.links[i];
      var peerOk := l.peer >= 0 && cfg.peerEnabled[l.peer];
      open := l.crossConnect && peerOk;
      if !open && !link[i].dropLogged {
        link[i] := link[i].(dropLogged := true);
      }
    }

    // ---------- OpenBridge to CC-CC ----------

    method HandleObpVoiceHead(i: nat, peerId: nat, src: nat, stream: Stream, now: real, ghost d: Dmrd)
      requires Valid() && i < link.Length && d.src == src && d.repeater == peerId && d.stream == stream
      modifies this`trace, link
      ensures Done(old(Abs()), old(trace), i, ObpHead(cfg.links[i], old(link[i]), d, now))
    {
      ghost var st, before, rt := Abs(), trace, link[i];
      if link[i].hasCall && link[i].call.origin == ObpOrigin {
        if stream == link[i].call.stream {
          Nothing(st, i, before);
          return;
        }
        EndObpOriginCall(i);
      } else if link[i].hasCall && link[i].call.origin == CcOrigin {
        Nothing(st, i, before);
        return;
      }
      ghost var ended := EndObpCall(rt).outs;
      assert trace == before + Tagged(i, ended) && link[..] == st.links[i := link[i]];
      link[i] := LinkRuntime(true, NO_CALL.(origin := ObpOrigin, src := src, peerId := peerId, stream := stream,
                                            start := now, last := now), link[i].dropLogged);
      Record(i, Bon(src, peerId, cfg.links[i].lid, cfg.links[i].tgid));
      var l := cfg.links[i];
      TwoSends(i, ended, Bon(src, peerId, l.lid, l.tgid), before);
      NoBump(ObpHead(l, rt, d, now).outs, st.ctr);
    }

    method HandleObpVoiceBurst(i: nat, payload33: Payload33, stream: Stream, now: real, now2: real, ghost d: Dmrd)
      requires Valid() && i < link.Length && d.payload == payload33 && d.stream == stream
      modifies this`trace, link
      ensures Done(old(Abs()), old(trace), i, ObpBurst(old(link[i]), d, now, now2))
    {
      hide Packed, ExtractedAmbe, IsFrames;
      ghost var st, before, rt := Abs(), trace, link[i];
      if !link[i].hasCall || link[i].call.origin != ObpOrigin || stream != link[i].call.stream {
        Nothing(st, i, before);
        return;
      }
      var call := link[i].call.(last := now);
      var ambe49 := ExtractAmbe(payload33);
      var out21 := new Byte[21];
      Pack21(ambe49, out21);
      var slot := SlotIndex(call.start, now2);
      var o := Voice(slot, RtpSeq(slot), RtpTimestamp(slot), !call.sentFirst, out21[..]);
      link[i] := link[i].(call := call.(sentFirst := true, slot := slot));
      Record(i, o);
      assert ObpBurst(rt, d, now, now2).outs == [o];
      OneSend(i, o);
      NoBump([o], st.ctr);
    }

    method HandleObpVoiceTerm(i: nat, stream: Stream, ghost d: Dmrd)
      requires Valid() && i < link.Length && d.stream == stream
      modifies this`trace, link
      ensures Done(old(Abs()), old(trace), i, ObpTerm(old(link[i]), d))
    {
      hide EndObpCall;
      if !link[i].hasCall || link[i].call.origin != ObpOrigin || stream != link[i].call.stream {
        Nothing(Abs(), i, trace);
        return;
      }
      EndObpOriginCall(i);
    }

    /** First link for this peer and talkgroup, or -1. */
    method FindLink(peer: nat, dst: nat) returns (idx: int)
      ensures idx == Route(cfg.links, peer, dst, 0)
    {
      idx := -1;
      for i := 0 to |cfg.links|
        invariant Route(cfg.links, peer, dst, 0) == Route(cfg.links, peer, dst, i)
      {
        if cfg.links[i].peer == peer && cfg.links[i].tgid % 0x1_0000_0000 == dst {
          idx := i;
          return;
        }
      }
    }

    method DmrdReceived(peer: nat, body: seq<Byte>, now: real, now2: real)
      requires Valid() && |body| == 53
      modifies this`trace, link
      ensures Valid() && DoneAll(old(trace), Step(old(Abs()), DmrdEvent(peer, Parse(body), now, now2)))
    {
      hide ObpHead, ObpTerm, ObpBurst, Parse, KindOf, Route;
      ghost var st, before := Abs(), trace;
      var d := Parse(body);
      ghost var e := DmrdEvent(peer, d, now, now2);
      var kind := KindOf(d.flags);
      var i := FindLink(peer, d.dst);
      if i < 0 {
        assert before + [] == before;
        return;
      }
      if kind == Ignored || !cfg.links[i].enabled {
        Nothing(st, i, before);
        return;
      }
      if kind == HeadKind {
        link[i] := link[i].(dropLogged := false);
      }
      ghost var rt := link[i];
      var open := ObpGateOpen(i);
      if !open {
        assert link[..] == st.links[i := rt.(dropLogged := true)];
        Nothing(Abs(), i, before);
        return;
      }
      assert link[..] == st.links[i := rt];
      ghost var mid := Abs();
      if kind == HeadKind {
        HandleObpVoiceHead(i, d.repeater, d.src, d.stream, now, d);
      } else if kind == TermKind {
        HandleObpVoiceTerm(i, d.stream, d);
      } else {
        HandleObpVoiceBurst(i, d.payload, d.stream, now, now2, d);
      }
      Twice(st, i, rt, LinkStep(st, i, e));
    }

    // ---------- CC-CC to OpenBridge ----------

    method CcccBon(i: nat, radio: nat, peerId: nat, stream: Stream, now: real)
      requires Valid() && i < link.Length
      modifies this`trace, link, obpSeqCtr
      ensures Valid() && DoneAll(old(trace), Step(old(Abs()), CcBonEvent(i, radio, peerId, stream, now)))
    {
      hide SendHead, CallLc, EncodeEmb;
      ghost var st, before := Abs(), trace;
      var l := cfg.links[i];
      if !l.enabled {
        Nothing(st, i, before);
        return;
      }
      link[i] := link[i].(dropLogged := false);
      ghost var rt := link[i];
      var open := ObpGateOpen(i);
      if !open {
        assert link[..] == st.links[i := rt.(dropLogged := true)];
        Nothing(Abs(), i, before);
        return;
      }
      assert link[..] == st.links[i := rt];
      if link[i].hasCall && (link[i].call.origin == CcOrigin || link[i].call.origin == ObpOrigin) {
        Nothing(Abs(), i, before);
        return;
      }
      var lc := CallLc(l.tgid, radio);
      var emb := EncodeEmblc(lc);
      var call := NO_CALL.(origin := CcOrigin, src := radio, ccPeerId := peerId, stream := stream, start := now,
                           last := now,
                           lc := lc, emb := emb);
      link[i] := LinkRuntime(true, call, link[i].dropLogged);
      ghost var mid := Abs();
      SendObpVoiceHead(i);
      Twice(st, i, link[i], LinkStep(st, i, CcBonEvent(i, radio, peerId, stream, now)));
    }

    method CcccVoice(i: nat, ambe21: Ambe21, now: real)
      requires Valid() && i < link.Length
      modifies this`trace, link, obpSeqCtr
      ensures Valid() && DoneAll(old(trace), Step(old(Abs()), CcVoiceEvent(i, ambe21, now)))
    {
      hide SendDmrd, VoicePayload, VoiceFlags;
      ghost var st, before := Abs(), trace;
      if !link[i].hasCall || link[i].call.origin != CcOrigin || !cfg.links[i].crossConnect {
        Nothing(st, i, before);
        return;
      }
      var call := link[i].call.(last := now);
      link[i] := link[i].(call := call);
      var pos := call.pos % 6;
      var payload33 := BuildVoicePayload(call.emb, pos, ambe21);
      SendDmrdFrame(i, VoiceFlags(pos), payload33);
      link[i] := link[i].(call := call.(pos := call.pos + 1));
      assert link[..] == st.links[i := link[i]];
      SendsTheSame(cfg.links[i], st.links[i].call, call, Count(st, i), VoiceFlags(pos), payload33);
    }

    method CcccBoff(i: nat)
      requires Valid() && i < link.Length
      modifies this`trace, link, obpSeqCtr
      ensures Valid() && DoneAll(old(trace), Step(old(Abs()), CcBoffEvent(i)))
    {
      hide EndCcCall;
      EndCcOriginCall(i);
    }

    method CcccLinkUp(i: nat)
      requires Valid() && i < link.Length
      modifies link
      ensures Valid() && DoneAll(old(trace), Step(old(Abs()), LinkUpEvent(i)))
    {
      link[i] := link[i].(dropLogged := false);
      Nothing(Abs(), i, trace);
    }

    method CcccLinkDown(i: nat)
      requires Valid() && i < link.Length
      modifies this`trace, link, obpSeqCtr
      ensures Valid() && DoneAll(old(trace), Step(old(Abs()), LinkDownEvent(i)))
    {
      hide SendTerm;
      ghost var st, before, rt := Abs(), trace, link[i];
      ghost var ended := EndCcCall(cfg.links[i], rt, Count(st, i)).outs;
      if link[i].hasCall && link[i].call.origin == CcOrigin {
        SendObpVoiceTerm(i);
      } else {
        Nothing(st, i, before);
      }
      link[i] := LinkRuntime(false, link[i].call, false);
      Record(i, Down);
      TwoSends(i, ended, Down, before);
      BumpLast(st.ctr, ended, Down);
    }

    // ---------- Housekeeping ----------

    method Tick(now: real)
      requires Valid()
      modifies this`trace, link, obpSeqCtr
      ensures Valid() && DoneAll(old(trace), Step(old(Abs()), TickEvent(now)))
    {
      hide Idle, OnLink, LinkStep;
      ghost var e := TickEvent(now);
      ghost var whole := TickFrom(Abs(), 0, e);
      for i := 0 to link.Length
        invariant Valid() && link.Length == |cfg.links|
        invariant TickFrom(Abs(), i, e).st == whole.st && trace + TickFrom(Abs(), i, e).sent == old(trace) + whole.sent
      {
        TickNext(Abs(), i, e, trace);
        TickLink(i, now);
      }
      assert trace + [] == trace;
    }

    method TickLink(i: nat, now: real)
      requires Valid() && i < link.Length
      modifies this`trace, link, obpSeqCtr
      ensures Valid() && cfg == old(cfg)
      ensures DoneAll(old(trace), OnLink(old(Abs()), i, TickEvent(now)))
    {
      hide EndCcCall, EndObpCall;
      if !link[i].hasCall {
        Nothing(Abs(), i, trace);
      } else if now - link[i].call.last > CALL_IDLE_TIMEOUT_S {
        if link[i].call.origin == ObpOrigin {
          EndObpOriginCall(i);
        } else {
          EndCcOriginCall(i);
        }
      } else {
        Nothing(Abs(), i, trace);
      }
    }

    /** A configuration reload: only toggles differ. */
    method Reload(config: Config)
      requires Valid() && Reloads(cfg, config)
      modifies this`cfg
      ensures Valid() && DoneAll(old(trace), Step(old(Abs()), ReloadEvent(config)))
    {
      cfg := config;
    }
  }

  // ---------- Small facts about updates ----------

  lemma Nothing(st: State, i: nat, before: seq<Sent>)
    requires i < |st.links|
    ensures Update(st, i, Result(st.links[i], [])) == st && before + Tagged(i, []) == before && Tagged(i, []) == []
  {
  }

  lemma OneSend(i: nat, o: Out)
    ensures Tagged(i, [o]) == [Sent(i, o)]
  {
  }

  lemma TwoSends(i: nat, outs: seq<Out>, o: Out, before: seq<Sent>)
    ensures before + Tagged(i, outs) + [Sent(i, o)] == before + Tagged(i, outs + [o])
  {
  }

  /** The activity stamp is not sent. */
  lemma SendsTheSame(l: LinkConfig, c: Call, d: Call, n: nat, flags: Byte, payload: Payload33)
    requires d == c.(last := d.last)
    ensures SendDmrd(l, c, n, flags, payload) == SendDmrd(l, d, n, flags, payload)
  {
  }

  lemma TickNext(st: State, i: nat, e: Event, before: seq<Sent>)
    requires WellFormed(st) && i < |st.links|
    ensures var o := OnLink(st, i, e);
            var rest := TickFrom(o.st, i + 1, e);
            |o.st.links| == |st.links| && TickFrom(st, i, e).st == rest.st
            && before + TickFrom(st, i, e).sent == before + o.sent + rest.sent
  {
    hide OnLink;
    assert |OnLink(st, i, e).st.links| == |st.links| by { OnLinkLength(st, i, e); }
  }

  /** A link written twice holds the second value. */
  lemma Twice(st: State, i: nat, rt: LinkRuntime, r: Result)
    requires i < |st.links|
    ensures Update(st.(links := st.links[i := rt]), i, r) == Update(st, i, r)
  {
  }
}
